/**
 Four-level x86-64 page tables (kern/mmu.h, kern/vm.c) as a store of table
 frames. Addresses are counted in 4K pages: a virtual page number is the low 48
 bits of an address shifted right by 12, which is all that ptx() looks at.
 */
module PageTable {
  import opened Basics

  const NPT: nat := 512

  /** A page table entry. perm holds the flag bits other than PTE_P and PTE_PS. */
  datatype Pte = Pte(present: bool, large: bool, frame: nat, perm: nat)

  const EMPTY: Pte := Pte(false, false, 0, 0)

  datatype Leaf = Leaf(frame: nat, perm: nat)

  type Tables = map<nat, seq<Pte>>

  function ZeroTable(): (t: seq<Pte>)
    ensures |t| == NPT && forall i :: 0 <= i < NPT ==> t[i] == EMPTY
  {
    seq(NPT, _ => EMPTY)
  }

  /** Pages that one entry of a table at this level covers. */
  function Span(level: nat): (n: nat)
    ensures n > 0
  {
    match level
    case 1 => 1
    case 2 => 512
    case 3 => 0x4_0000
    case 4 => 0x800_0000
    case 5 => 0x10_0000_0000
    case _ => 1
  }

  /** ptx(va, level): the index of vpn's entry in a table at this level. */
  function Ptx(vpn: nat, level: nat): (i: nat)
    ensures i < NPT
  {
    (vpn / Span(level)) % NPT
  }

  /** The four indices, from the root on, are the digits of vpn to base 512. */
  lemma VpnIsIndices(vpn: nat)
    requires vpn < Span(5)
    ensures vpn == ((Ptx(vpn, 4) * 512 + Ptx(vpn, 3)) * 512 + Ptx(vpn, 2)) * 512 + Ptx(vpn, 1)
  {
    var a := vpn / 512;
    var b := a / 512;
    assert vpn / Span(3) == b && vpn / Span(4) == b / 512;
  }

  /** The translation the hardware makes (Intel SDM volume 3A, section 4.5), with 1G, 2M and 4K leaves. */
  function Lookup(m: Tables, t: nat, level: nat, vpn: nat): (r: Option<Leaf>)
    decreases level
  {
    if t !in m || |m[t]| != NPT || level == 0 then None
    else
      var e := m[t][Ptx(vpn, level)];
      if !e.present then None
      else if level == 1 || e.large then Some(Leaf(e.frame + vpn % Span(level), e.perm))
      else Lookup(m, e.frame, level - 1, vpn)
  }

  /** Where a table sits: its level, and the vpn bits above its own index. */
  datatype Loc = Loc(level: nat, prefix: nat)

  predicate EntryOk(pos: map<nat, Loc>, l: Loc, i: nat, e: Pte) {
    e.present ==>
      if l.level <= 1 then !e.large
      else if e.large then l.level < 4
      else e.frame in pos && pos[e.frame] == Loc(l.level - 1, l.prefix * NPT + i) && e.perm == TABLEPERM
  }

  /** Every table frame has one place in the tree, and entries lead to the next level at the right place. */
  ghost predicate Wf(m: Tables, pos: map<nat, Loc>) {
    forall t :: t in pos ==> t in m && TableOk(pos, pos[t], m[t])
  }

  predicate TableOk(pos: map<nat, Loc>, l: Loc, t: seq<Pte>) {
    && |t| == NPT && 1 <= l.level <= 4
    && forall i :: 0 <= i < NPT ==> EntryOk(pos, l, i, t[i])
  }

  /** vpn goes through the table at l. */
  predicate Through(l: Loc, vpn: nat) {
    1 <= l.level <= 4 && vpn / Span(l.level + 1) == l.prefix
  }

  /** vpn goes through entry i of the table at l. */
  predicate Covers(l: Loc, i: nat, vpn: nat) {
    Through(l, vpn) && Ptx(vpn, l.level) == i
  }

  const PTEW: nat := 2
  const PTEU: nat := 4

  predicate HasPerm(perm: nat, bit: nat)
    requires bit > 0
  {
    perm / bit % 2 == 1
  }

  /** The hardware allows an access only if every entry on the way does (Intel SDM volume 3A, section 4.6). */
  predicate Allows(m: Tables, t: nat, level: nat, vpn: nat, bit: nat)
    requires bit > 0
    decreases level
  {
    && t in m && |m[t]| == NPT && level > 0
    && var e := m[t][Ptx(vpn, level)];
       e.present && HasPerm(e.perm, bit) && (level == 1 || e.large || Allows(m, e.frame, level - 1, vpn, bit))
  }

  /** Table entries stand in the way of no access: the leaf decides. */
  lemma {:induction false} LeafDecides(m: Tables, pos: map<nat, Loc>, t: nat, vpn: nat, bit: nat)
    requires Wf(m, pos) && t in pos && Through(pos[t], vpn) && (bit == PTEW || bit == PTEU)
    ensures Allows(m, t, pos[t].level, vpn, bit) <==>
            var r := Lookup(m, t, pos[t].level, vpn); r.Some? && HasPerm(r.value.perm, bit)
    decreases pos[t].level
  {
    var l := pos[t];
    assert TableOk(pos, l, m[t]);
    var e := m[t][Ptx(vpn, l.level)];
    assert EntryOk(pos, l, Ptx(vpn, l.level), e);
    if e.present && !e.large && l.level > 1 {
      ChildThrough(l, vpn);
      LeafDecides(m, pos, e.frame, vpn, bit);
    }
  }

  lemma SpanSplit(level: nat, vpn: nat)
    requires 1 <= level <= 4
    ensures vpn / Span(level) == (vpn / Span(level + 1)) * NPT + Ptx(vpn, level)
  {
  }

  /** Following vpn's entry from a table vpn goes through leads to a table vpn goes through. */
  lemma ChildThrough(l: Loc, vpn: nat)
    requires Through(l, vpn) && l.level > 1
    ensures Through(Loc(l.level - 1, l.prefix * NPT + Ptx(vpn, l.level)), vpn)
  {
    SpanSplit(l.level, vpn);
  }

  /** Writing one entry changes the translation only of pages that go through it. */
  lemma {:induction false} WriteElsewhere(m: Tables, pos: map<nat, Loc>, u: nat, i: nat, e: Pte, t: nat, vpn: nat)
    requires Wf(m, pos) && u in pos && t in pos && i < NPT && Through(pos[t], vpn)
    requires !Covers(pos[u], i, vpn)
    ensures Lookup(m[u := m[u][i := e]], t, pos[t].level, vpn) == Lookup(m, t, pos[t].level, vpn)
    decreases pos[t].level
  {
    var l := pos[t];
    var f := m[t][Ptx(vpn, l.level)];
    assert TableOk(pos, l, m[t]);
    if f.present && l.level > 1 && !f.large {
      assert EntryOk(pos, l, Ptx(vpn, l.level), f);
      ChildThrough(l, vpn);
      WriteElsewhere(m, pos, u, i, e, f.frame, vpn);
    }
  }

  /** The table that vpn's walk from t meets at level stop, if the walk gets there. */
  function WalkTo(m: Tables, t: nat, level: nat, vpn: nat, stop: nat): (r: Option<nat>)
    decreases level
  {
    if level == stop then Some(t)
    else if t !in m || |m[t]| != NPT || level == 0 then None
    else
      var e := m[t][Ptx(vpn, level)];
      if !e.present || e.large then None else WalkTo(m, e.frame, level - 1, vpn, stop)
  }

  lemma {:induction false} WalkPlace(m: Tables, pos: map<nat, Loc>, t: nat, vpn: nat, stop: nat)
    requires Wf(m, pos) && t in pos && Through(pos[t], vpn) && 1 <= stop <= pos[t].level
    requires WalkTo(m, t, pos[t].level, vpn, stop).Some?
    ensures var u := WalkTo(m, t, pos[t].level, vpn, stop).value;
            && u in pos && pos[u].level == stop && Through(pos[u], vpn)
            && Lookup(m, t, pos[t].level, vpn) == Lookup(m, u, stop, vpn)
    decreases pos[t].level
  {
    var l := pos[t];
    if l.level != stop {
      var f := m[t][Ptx(vpn, l.level)];
      assert TableOk(pos, l, m[t]);
      assert EntryOk(pos, l, Ptx(vpn, l.level), f);
      ChildThrough(l, vpn);
      WalkPlace(m, pos, f.frame, vpn, stop);
    }
  }

  /** Pages that agree above level stop walk to the same table. */
  lemma {:induction false} WalkSame(m: Tables, t: nat, level: nat, v: nat, w: nat, stop: nat)
    requires 1 <= stop <= level <= 4 && v / Span(stop + 1) == w / Span(stop + 1)
    ensures WalkTo(m, t, level, v, stop) == WalkTo(m, t, level, w, stop)
    decreases level
  {
    if level != stop && t in m && |m[t]| == NPT {
      SameIndexAbove(stop, level, v, w);
      var e := m[t][Ptx(v, level)];
      if e.present && !e.large {
        WalkSame(m, e.frame, level - 1, v, w, stop);
      }
    }
  }

  lemma SameIndexAbove(stop: nat, level: nat, v: nat, w: nat)
    requires 1 <= stop < level <= 4 && v / Span(stop + 1) == w / Span(stop + 1)
    ensures Ptx(v, level) == Ptx(w, level)
  {
    assert v / Span(level) == w / Span(level) by { CoarserEqual(stop + 1, level, v, w); }
  }

  lemma {:induction false} CoarserEqual(fine: nat, coarse: nat, v: nat, w: nat)
    requires 1 <= fine <= coarse <= 5 && v / Span(fine) == w / Span(fine)
    ensures v / Span(coarse) == w / Span(coarse)
    decreases coarse - fine
  {
    if fine < coarse {
      SpanSplit(fine, v);
      SpanSplit(fine, w);
      CoarserEqual(fine + 1, coarse, v, w);
    }
  }

  /** Writing an entry of a table leaves every walk that ends at that table or above it alone. */
  lemma {:induction false} WriteKeepsWalk(m: Tables, pos: map<nat, Loc>, u: nat, i: nat, e: Pte, t: nat, vpn: nat,
                                          stop: nat)
    requires Wf(m, pos) && u in pos && t in pos && i < NPT && Through(pos[t], vpn)
    requires 1 <= stop <= pos[t].level && pos[u].level <= stop
    ensures WalkTo(m[u := m[u][i := e]], t, pos[t].level, vpn, stop) == WalkTo(m, t, pos[t].level, vpn, stop)
    decreases pos[t].level
  {
    var l := pos[t];
    if l.level != stop {
      var f := m[t][Ptx(vpn, l.level)];
      assert TableOk(pos, l, m[t]);
      assert EntryOk(pos, l, Ptx(vpn, l.level), f);
      if f.present && !f.large {
        ChildThrough(l, vpn);
        WriteKeepsWalk(m, pos, u, i, e, f.frame, vpn, stop);
      }
    }
  }

  // --------------------------------------------------- changing the tables

  /** An aligned page and another are under the same entry exactly when the other is in the entry's range. */
  lemma InRange(stop: nat, vpn: nat, w: nat)
    requires 1 <= stop <= 4 && vpn % Span(stop) == 0
    ensures w / Span(stop) == vpn / Span(stop) <==> vpn <= w < vpn + Span(stop)
    ensures vpn <= w < vpn + Span(stop) ==> w % Span(stop) == w - vpn
  {
  }

  /** The tables after the leaf entry for vpn at level stop is written. */
  function WithEntry(m: Tables, u: nat, i: nat, e: Pte): (r: Tables)
    requires u in m && |m[u]| == NPT && i < NPT
    ensures r.Keys == m.Keys
  {
    m[u := m[u][i := e]]
  }

  lemma WithLeafWf(m: Tables, pos: map<nat, Loc>, u: nat, i: nat, e: Pte)
    requires Wf(m, pos) && u in pos && i < NPT && EntryOk(pos, pos[u], i, e)
    ensures u in m && |m[u]| == NPT && Wf(WithEntry(m, u, i, e), pos)
  {
    var r := WithEntry(m, u, i, e);
    forall t | t in pos
      ensures t in r && TableOk(pos, pos[t], r[t])
    {
      assert TableOk(pos, pos[t], m[t]);
    }
  }

  /** A page under the new leaf. */
  lemma LeafInside(m: Tables, pos: map<nat, Loc>, root: nat, vpn: nat, stop: nat, u: nat, e: Pte, w: nat)
    requires Wf(m, pos) && root in pos && pos[root] == Loc(4, 0) && vpn < Span(5) && w < Span(5)
    requires 1 <= stop <= 3 && vpn % Span(stop) == 0 && WalkTo(m, root, 4, vpn, stop) == Some(u)
    requires e.present && (e.large <==> stop > 1) && vpn <= w < vpn + Span(stop)
    ensures u in m && |m[u]| == NPT
    ensures Lookup(WithEntry(m, u, Ptx(vpn, stop), e), root, 4, w) == Some(Leaf(e.frame + (w - vpn), e.perm))
  {
    WalkPlace(m, pos, root, vpn, stop);
    assert TableOk(pos, pos[u], m[u]);
    var i := Ptx(vpn, stop);
    InRange(stop, vpn, w);
    CoarserEqual(stop, stop + 1, vpn, w);
    WalkSame(m, root, 4, vpn, w, stop);
    WriteKeepsWalk(m, pos, u, i, e, root, w, stop);
    WithLeafWf(m, pos, u, i, e);
    WalkPlace(WithEntry(m, u, i, e), pos, root, w, stop);
  }

  /** A page outside the new leaf. */
  lemma LeafOutside(m: Tables, pos: map<nat, Loc>, root: nat, vpn: nat, stop: nat, u: nat, e: Pte, w: nat)
    requires Wf(m, pos) && root in pos && pos[root] == Loc(4, 0) && vpn < Span(5) && w < Span(5)
    requires 1 <= stop <= 3 && vpn % Span(stop) == 0 && WalkTo(m, root, 4, vpn, stop) == Some(u)
    requires !(vpn <= w < vpn + Span(stop))
    ensures u in m && |m[u]| == NPT
    ensures Lookup(WithEntry(m, u, Ptx(vpn, stop), e), root, 4, w) == Lookup(m, root, 4, w)
  {
    WalkPlace(m, pos, root, vpn, stop);
    assert TableOk(pos, pos[u], m[u]);
    InRange(stop, vpn, w);
    SpanSplit(stop, vpn);
    SpanSplit(stop, w);
    WriteElsewhere(m, pos, u, Ptx(vpn, stop), e, root, w);
  }

  /** What root translates page w to after the pages [vpn, vpn+n) are mapped onto frames from f on. */
  function Mapped(was: Option<Leaf>, vpn: nat, n: nat, f: nat, perm: nat, w: nat): Option<Leaf> {
    if vpn <= w < vpn + n then Some(Leaf(f + (w - vpn), perm)) else was
  }

  /** r translates [vpn, vpn+n) to frames f, f+1, ... with perm, and every other page as m does. */
  ghost predicate Remapped(m: Tables, r: Tables, root: nat, vpn: nat, n: nat, f: nat, perm: nat) {
    forall w :: 0 <= w < Span(5) ==>
      Lookup(r, root, 4, w) == Mapped(Lookup(m, root, 4, w), vpn, n, f, perm, w)
  }

  lemma RemappedChain(m0: Tables, m1: Tables, m2: Tables, root: nat, vpn: nat, k: nat, n: nat, f: nat, perm: nat)
    requires Remapped(m0, m1, root, vpn, k, f, perm) && Remapped(m1, m2, root, vpn + k, n, f + k, perm)
    ensures Remapped(m0, m2, root, vpn, k + n, f, perm)
  {
    hide Lookup;
  }

  /** Writing a leaf maps exactly the pages it covers, contiguously, and leaves the rest. */
  lemma LeafMaps(m: Tables, pos: map<nat, Loc>, root: nat, vpn: nat, stop: nat, u: nat, e: Pte)
    requires Wf(m, pos) && root in pos && pos[root] == Loc(4, 0) && vpn < Span(5)
    requires 1 <= stop <= 3 && vpn % Span(stop) == 0 && WalkTo(m, root, 4, vpn, stop) == Some(u)
    requires e.present && (e.large <==> stop > 1)
    ensures u in m && |m[u]| == NPT
    ensures Wf(WithEntry(m, u, Ptx(vpn, stop), e), pos)
    ensures Remapped(m, WithEntry(m, u, Ptx(vpn, stop), e), root, vpn, Span(stop), e.frame, e.perm)
  {
    hide WalkTo, Lookup, Ptx, Wf;
    LeafInside(m, pos, root, vpn, stop, u, e, vpn);
    LeafWf(m, pos, root, vpn, stop, u, e);
    forall w | 0 <= w < Span(5)
      ensures Lookup(WithEntry(m, u, Ptx(vpn, stop), e), root, 4, w) ==
              Mapped(Lookup(m, root, 4, w), vpn, Span(stop), e.frame, e.perm, w)
    {
      if vpn <= w < vpn + Span(stop) {
        LeafInside(m, pos, root, vpn, stop, u, e, w);
      } else {
        LeafOutside(m, pos, root, vpn, stop, u, e, w);
      }
    }
  }

  lemma LeafWf(m: Tables, pos: map<nat, Loc>, root: nat, vpn: nat, stop: nat, u: nat, e: Pte)
    requires Wf(m, pos) && root in pos && pos[root] == Loc(4, 0) && vpn < Span(5)
    requires 1 <= stop <= 3 && WalkTo(m, root, 4, vpn, stop) == Some(u)
    requires e.present && (e.large <==> stop > 1)
    ensures u in pos && u in m && |m[u]| == NPT && Wf(WithEntry(m, u, Ptx(vpn, stop), e), pos)
  {
    WalkPlace(m, pos, root, vpn, stop);
    WithLeafWf(m, pos, u, Ptx(vpn, stop), e);
  }

  /** Every page translates the same from every table, in m and in r. */
  ghost predicate SameTrans(m: Tables, r: Tables, pos: map<nat, Loc>) {
    forall t, w :: t in pos && Through(pos[t], w) ==> Lookup(r, t, pos[t].level, w) == Lookup(m, t, pos[t].level, w)
  }

  const TABLEPERM: nat := 6  // PTE_W | PTE_U: generous, the leaf entries narrow it

  /** do_walk's new table f below entry i of u. */
  function WithTable(m: Tables, u: nat, i: nat, f: nat): Tables
    requires u in m && |m[u]| == NPT && i < NPT
  {
    m[f := ZeroTable()][u := m[u][i := Pte(true, false, f, TABLEPERM)]]
  }

  function WithPlace(pos: map<nat, Loc>, u: nat, i: nat, f: nat): map<nat, Loc>
    requires u in pos && pos[u].level > 1
  {
    pos[f := Loc(pos[u].level - 1, pos[u].prefix * NPT + i)]
  }

  lemma NewTableWf(m: Tables, pos: map<nat, Loc>, u: nat, i: nat, f: nat)
    requires Wf(m, pos) && u in pos && pos[u].level > 1 && i < NPT && f !in m
    ensures u in m && |m[u]| == NPT && Wf(WithTable(m, u, i, f), WithPlace(pos, u, i, f))
  {
    assert TableOk(pos, pos[u], m[u]);
    var r, q := WithTable(m, u, i, f), WithPlace(pos, u, i, f);
    forall t | t in q
      ensures t in r && TableOk(q, q[t], r[t])
    {
      if t in pos {
        assert TableOk(pos, pos[t], m[t]);
        forall j | 0 <= j < NPT
          ensures EntryOk(q, q[t], j, r[t][j])
        {
          assert EntryOk(pos, pos[t], j, m[t][j]);
        }
      }
    }
  }

  /** A new, empty table translates nothing: every translation stays. */
  lemma {:induction false} NewTableLookup(m: Tables, pos: map<nat, Loc>, u: nat, i: nat, f: nat, t: nat, w: nat)
    requires Wf(m, pos) && u in pos && pos[u].level > 1 && i < NPT && f !in m
    requires u in m && |m[u]| == NPT && !m[u][i].present
    requires t in pos && Through(pos[t], w)
    ensures Lookup(WithTable(m, u, i, f), t, pos[t].level, w) == Lookup(m, t, pos[t].level, w)
    decreases pos[t].level
  {
    var l := pos[t];
    var e := m[t][Ptx(w, l.level)];
    assert TableOk(pos, l, m[t]);
    if e.present && l.level > 1 && !e.large {
      assert EntryOk(pos, l, Ptx(w, l.level), e);
      ChildThrough(l, w);
      NewTableLookup(m, pos, u, i, f, e.frame, w);
    } else if t == u && Ptx(w, l.level) == i {
      var r := WithTable(m, u, i, f);
      assert r[f] == ZeroTable();
      assert Lookup(r, f, l.level - 1, w) == None;
    }
  }

  /** Present entries stay as they are. */
  predicate Extends(m: Tables, r: Tables) {
    forall u :: u in m ==> u in r && |r[u]| == |m[u]| &&
                           forall i :: 0 <= i < |m[u]| && m[u][i].present ==> r[u][i] == m[u][i]
  }

  /** Clearing a 4K entry unmaps its page and no other. */
  lemma ClearUnmaps(m: Tables, pos: map<nat, Loc>, root: nat, vpn: nat, u: nat)
    requires Wf(m, pos) && root in pos && pos[root] == Loc(4, 0) && vpn < Span(5)
    requires WalkTo(m, root, 4, vpn, 1) == Some(u)
    ensures u in m && |m[u]| == NPT
    ensures Lookup(WithEntry(m, u, Ptx(vpn, 1), EMPTY), root, 4, vpn) == None
    ensures forall w: nat :: w < Span(5) && w != vpn ==>
      Lookup(WithEntry(m, u, Ptx(vpn, 1), EMPTY), root, 4, w) == Lookup(m, root, 4, w)
  {
    hide Wf, Ptx;
    ClearedEntry(m, pos, root, vpn, u);
    forall w: nat | w < Span(5) && w != vpn
      ensures Lookup(WithEntry(m, u, Ptx(vpn, 1), EMPTY), root, 4, w) == Lookup(m, root, 4, w)
    {
      LeafOutside(m, pos, root, vpn, 1, u, EMPTY, w);
    }
  }

  lemma ClearedEntry(m: Tables, pos: map<nat, Loc>, root: nat, vpn: nat, u: nat)
    requires Wf(m, pos) && root in pos && pos[root] == Loc(4, 0) && vpn < Span(5)
    requires WalkTo(m, root, 4, vpn, 1) == Some(u)
    ensures u in m && |m[u]| == NPT
    ensures Lookup(WithEntry(m, u, Ptx(vpn, 1), EMPTY), root, 4, vpn) == None
  {
    assert Through(pos[root], vpn);
    WalkPlace(m, pos, root, vpn, 1);
    assert TableOk(pos, pos[u], m[u]);
    var i := Ptx(vpn, 1);
    WithLeafWf(m, pos, u, i, EMPTY);
    WriteKeepsWalk(m, pos, u, i, EMPTY, root, vpn, 1);
    WalkPlace(WithEntry(m, u, i, EMPTY), pos, root, vpn, 1);
  }
}
