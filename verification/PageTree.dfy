/**
 Who owns which page table: every address space's tables form a tree below its
 own root, and only the kernel half of the top level is shared.
 */
module PageTree {
  import opened PageTable

  /**
   For each table: its place, the root of the tree it belongs to, and the table that
   links to it. The trees of wide roots, the kernel's among them, may hold large leaves;
   the others are address spaces of 4K pages.
   */
  datatype Shape = Shape(pos: map<nat, Loc>, own: map<nat, nat>, up: map<nat, nat>, kroot: nat, wide: set<nat>)

  const UHALF: nat := 256  // top-level entries of the user half

  /** Entries that belong to the address space itself. */
  predicate UserPart(l: Loc, i: nat) {
    l.level < 4 || i < UHALF
  }

  predicate LinksTo(e: Pte, t: nat) {
    e.present && !e.large && e.frame == t
  }

  /** The one entry that links to a user table below the top level. */
  predicate UpOk(m: Tables, sh: Shape, t: nat)
    requires t in sh.pos && t in sh.own
  {
    var l := sh.pos[t];
    && t in sh.up
    && var p := sh.up[t];
       && p in m && p in sh.own && p in sh.pos && sh.own[p] == sh.own[t] && |m[p]| == NPT
       && sh.pos[p] == Loc(l.level + 1, l.prefix / NPT) && LinksTo(m[p][l.prefix % NPT], t)
  }

  /** Entry i of a table leads into the same tree, or from a top level into the kernel's. */
  predicate EntryOwn(sh: Shape, r: nat, l: Loc, i: nat, e: Pte) {
    e.present && l.level > 1 ==>
      if r != sh.kroot && UserPart(l, i) then
        if e.large then r in sh.wide else e.frame in sh.own && sh.own[e.frame] == r
      else !e.large ==> e.frame in sh.own && sh.own[e.frame] == sh.kroot
  }

  predicate NodeOk(m: Tables, sh: Shape, t: nat)
    requires t in m && t in sh.pos && t in sh.own
  {
    var l, r := sh.pos[t], sh.own[t];
    && |m[t]| == NPT
    && (forall i :: 0 <= i < NPT ==> EntryOwn(sh, r, l, i, m[t][i]))
    && r in sh.own && sh.own[r] == r && r in sh.pos && sh.pos[r] == Loc(4, 0)
    && (r !in sh.wide ==>
          && (l.level == 4 <==> t == r) && (l.level < 4 ==> UpOk(m, sh, t)) && (l.level == 3 ==> l.prefix < UHALF))
  }

  /** No two tables of one user tree sit in the same place. */
  ghost predicate OnePerPlace(sh: Shape) {
    forall t: nat, u: nat :: Twins(sh, t, u) ==> t == u
  }

  predicate Twins(sh: Shape, t: nat, u: nat) {
    && t in sh.own && u in sh.own && t in sh.pos && u in sh.pos
    && sh.own[t] == sh.own[u] && sh.own[t] !in sh.wide && sh.pos[t] == sh.pos[u]
  }

  ghost predicate ForestOk(m: Tables, sh: Shape) {
    && Wf(m, sh.pos) && m.Keys == sh.pos.Keys == sh.own.Keys
    && sh.kroot in sh.wide && (forall r :: r in sh.wide ==> r in sh.own && sh.own[r] == r)
    && sh.kroot in m && sh.own[sh.kroot] == sh.kroot && sh.pos[sh.kroot] == Loc(4, 0)
    && OnePerPlace(sh) && forall t :: t in m ==> NodeOk(m, sh, t)
  }

  // --------------------------------------------------------- separation

  /** r has every table of the trees owned by o and by the kernel, unchanged. */
  predicate Keeps(m: Tables, r: Tables, sh: Shape, o: nat) {
    forall x :: x in m && x in sh.own && (sh.own[x] == o || sh.own[x] == sh.kroot) ==> x in r && r[x] == m[x]
  }

  /** A walk stays in its own tree and the kernel's: what happens elsewhere cannot change it. */
  lemma {:induction false} LookupKeeps(m: Tables, r: Tables, sh: Shape, o: nat, t: nat, level: nat, w: nat)
    requires ForestOk(m, sh) && t in m && (sh.own[t] == o || sh.own[t] == sh.kroot) && Keeps(m, r, sh, o)
    requires sh.pos[t].level == level
    ensures Lookup(r, t, level, w) == Lookup(m, t, level, w)
    decreases level
  {
    hide UpOk, OnePerPlace, Ptx;
    var i := Ptx(w, level);
    assert NodeOk(m, sh, t) && TableOk(sh.pos, sh.pos[t], m[t]);
    var e := m[t][i];
    assert EntryOwn(sh, sh.own[t], sh.pos[t], i, e) && EntryOk(sh.pos, sh.pos[t], i, e);
    if e.present && level > 1 && !e.large {
      LookupKeeps(m, r, sh, o, e.frame, level - 1, w);
    }
  }

  // ---------------------------------------------------------- new tables

  function Planted(sh: Shape, u: nat, i: nat, f: nat): Shape
    requires u in sh.pos && u in sh.own && sh.pos[u].level > 1
  {
    sh.(pos := WithPlace(sh.pos, u, i, f), own := sh.own[f := sh.own[u]], up := sh.up[f := u])
  }

  /** Where a new table may be planted: below an entry of u that is not in use. */
  predicate Plantable(m: Tables, sh: Shape, u: nat, i: nat, f: nat) {
    && u in m && u in sh.pos && u in sh.own && 1 < sh.pos[u].level <= 4 && i < NPT && |m[u]| == NPT && !m[u][i].present
    && f !in m && f !in sh.pos && f !in sh.own && (sh.own[u] != sh.kroot ==> UserPart(sh.pos[u], i))
  }

  lemma ChildPlace(prefix: nat, i: nat)
    requires i < NPT
    ensures (prefix * NPT + i) / NPT == prefix && (prefix * NPT + i) % NPT == i
  {
  }

  /** Before a table is planted at a user place, nothing sits there. */
  lemma PlaceIsFree(m: Tables, sh: Shape, u: nat, i: nat, f: nat, t: nat)
    requires Plantable(m, sh, u, i, f) && OnePerPlace(sh)
    requires t in m && t in sh.pos && t in sh.own && NodeOk(m, sh, t)
    requires sh.own[t] == sh.own[u] && sh.own[u] !in sh.wide
    ensures sh.pos[t] != Loc(sh.pos[u].level - 1, sh.pos[u].prefix * NPT + i)
  {
    hide EntryOwn;
    ChildPlace(sh.pos[u].prefix, i);
    var place := Loc(sh.pos[u].level - 1, sh.pos[u].prefix * NPT + i);
    assert sh.pos[t] == place ==> UpOk(m, sh, t) && Twins(sh, sh.up[t], u);
  }

  lemma PlantedNode(m: Tables, sh: Shape, u: nat, i: nat, f: nat, t: nat)
    requires Plantable(m, sh, u, i, f) && t in m && t in sh.pos && t in sh.own && NodeOk(m, sh, t)
    ensures NodeOk(WithTable(m, u, i, f), Planted(sh, u, i, f), t)
  {
    PlantedEntries(m, sh, u, i, f, t);
    if sh.own[t] !in sh.wide && sh.pos[t].level < 4 {
      assert UpOk(m, sh, t);
      PlantedUp(m, sh, u, i, f, t);
    }
  }

  lemma PlantedEntries(m: Tables, sh: Shape, u: nat, i: nat, f: nat, t: nat)
    requires Plantable(m, sh, u, i, f) && t in m && t in sh.pos && t in sh.own && NodeOk(m, sh, t)
    ensures forall j :: 0 <= j < NPT ==>
      EntryOwn(Planted(sh, u, i, f), sh.own[t], sh.pos[t], j, WithTable(m, u, i, f)[t][j])
  {
    hide UpOk;
    forall j | 0 <= j < NPT
      ensures EntryOwn(Planted(sh, u, i, f), sh.own[t], sh.pos[t], j, WithTable(m, u, i, f)[t][j])
    {
      assert EntryOwn(sh, sh.own[t], sh.pos[t], j, m[t][j]);
    }
  }

  lemma PlantedUp(m: Tables, sh: Shape, u: nat, i: nat, f: nat, t: nat)
    requires Plantable(m, sh, u, i, f) && t in m && t in sh.pos && t in sh.own && UpOk(m, sh, t)
    ensures UpOk(WithTable(m, u, i, f), Planted(sh, u, i, f), t)
  {
  }

  lemma PlantedNew(m: Tables, sh: Shape, u: nat, i: nat, f: nat)
    requires Plantable(m, sh, u, i, f) && NodeOk(m, sh, u) && 1 < sh.pos[u].level <= 4 && sh.kroot in sh.wide
    ensures NodeOk(WithTable(m, u, i, f), Planted(sh, u, i, f), f)
  {
    ChildPlace(sh.pos[u].prefix, i);
  }

  lemma PlantedForest(m: Tables, sh: Shape, u: nat, i: nat, f: nat)
    requires ForestOk(m, sh) && Plantable(m, sh, u, i, f)
    ensures ForestOk(WithTable(m, u, i, f), Planted(sh, u, i, f))
  {
    hide NodeOk;
    var m', sh' := WithTable(m, u, i, f), Planted(sh, u, i, f);
    assert TableOk(sh.pos, sh.pos[u], m[u]);
    NewTableWf(m, sh.pos, u, i, f);
    forall t | t in m'
      ensures NodeOk(m', sh', t)
    {
      if t == f { PlantedNew(m, sh, u, i, f); } else { PlantedNode(m, sh, u, i, f, t); }
    }
    PlantedOnce(m, sh, u, i, f);
  }

  lemma PlantedOnce(m: Tables, sh: Shape, u: nat, i: nat, f: nat)
    requires Plantable(m, sh, u, i, f) && OnePerPlace(sh) && m.Keys == sh.pos.Keys == sh.own.Keys
    requires forall t :: t in m ==> NodeOk(m, sh, t)
    ensures OnePerPlace(Planted(sh, u, i, f))
  {
    hide NodeOk;
    var sh' := Planted(sh, u, i, f);
    forall t: nat, v: nat | Twins(sh', t, v)
      ensures t == v
    {
      if t != f && v != f {
        assert Twins(sh, t, v);
      } else if t != v {
        PlaceIsFree(m, sh, u, i, f, if t == f then v else t);
      }
    }
  }

  // ------------------------------------------------------------- entries

  /** An entry that may be written without touching any link of a user tree. */
  predicate Harmless(sh: Shape, u: nat, e: Pte)
    requires u in sh.pos && u in sh.own
  {
    if sh.own[u] in sh.wide then !e.present || sh.pos[u].level == 1 || e.large else sh.pos[u].level == 1
  }

  lemma WrittenForest(m: Tables, sh: Shape, u: nat, i: nat, e: Pte)
    requires ForestOk(m, sh) && u in m && |m[u]| == NPT && i < NPT
    requires EntryOk(sh.pos, sh.pos[u], i, e) && Harmless(sh, u, e)
    ensures ForestOk(WithEntry(m, u, i, e), sh)
  {
    hide NodeOk;
    var r := WithEntry(m, u, i, e);
    WithLeafWf(m, sh.pos, u, i, e);
    forall t | t in r
      ensures NodeOk(r, sh, t)
    {
      assert TableOk(sh.pos, sh.pos[t], m[t]);
      WrittenNode(m, sh, u, i, e, t);
    }
  }

  lemma WrittenNode(m: Tables, sh: Shape, u: nat, i: nat, e: Pte, t: nat)
    requires u in m && u in sh.pos && u in sh.own && |m[u]| == NPT && i < NPT
    requires t in m && t in sh.pos && t in sh.own && NodeOk(m, sh, t) && 1 <= sh.pos[t].level
    requires EntryOk(sh.pos, sh.pos[u], i, e) && Harmless(sh, u, e)
    ensures NodeOk(WithEntry(m, u, i, e), sh, t)
  {
    var r := WithEntry(m, u, i, e);
    forall j | 0 <= j < NPT
      ensures EntryOwn(sh, sh.own[t], sh.pos[t], j, r[t][j])
    {
      assert EntryOwn(sh, sh.own[t], sh.pos[t], j, m[t][j]);
    }
  }
}
