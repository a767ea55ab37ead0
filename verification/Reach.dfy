/**
 Which tables a root reaches, and how many: a walk that builds tables adds one frame
 for each place it newly reaches, and a leaf written where no table hangs adds none.
 */
module Reach {
  import opened Basics
  import opened PageTable

  // ---------------------------------------------------- how deep a walk gets

  /** The level of the last table on vpn's walk from t. */
  function Depth(m: Tables, t: nat, level: nat, vpn: nat): (d: nat)
    ensures d <= level && (level >= 1 ==> d >= 1)
    decreases level
  {
    if level <= 1 || t !in m || |m[t]| != NPT then level
    else
      var e := m[t][Ptx(vpn, level)];
      if e.present && !e.large then Depth(m, e.frame, level - 1, vpn) else level
  }

  lemma {:induction false} DepthWalk(m: Tables, t: nat, level: nat, vpn: nat, k: nat)
    requires 1 <= k <= level
    ensures WalkTo(m, t, level, vpn, k).Some? <==> Depth(m, t, level, vpn) <= k
    decreases level
  {
    hide Ptx;
    if k < level && t in m && |m[t]| == NPT {
      var e := m[t][Ptx(vpn, level)];
      if e.present && !e.large {
        DepthWalk(m, e.frame, level - 1, vpn, k);
      }
    }
  }

  // -------------------------------------------------------- building tables

  /** Links of r to tables of m are links of m. */
  predicate NewLinks(m: Tables, r: Tables) {
    forall u, i :: u in r && 0 <= i < |r[u]| && r[u][i].present && !r[u][i].large && r[u][i].frame in m ==>
      u in m && i < |m[u]| && m[u][i] == r[u][i]
  }

  /** r is m with as many tables more as vpn's walk from t gets deeper, none of them below level stop. */
  ghost predicate Built(m: Tables, r: Tables, t: nat, level: nat, vpn: nat, stop: nat) {
    && Extends(m, r) && NewLinks(m, r)
    && |r.Keys| + Depth(r, t, level, vpn) == |m.Keys| + Depth(m, t, level, vpn)
    && (Depth(r, t, level, vpn) == Depth(m, t, level, vpn) || stop <= Depth(r, t, level, vpn))
  }

  lemma NoneBuilt(m: Tables, t: nat, level: nat, vpn: nat, stop: nat)
    ensures Built(m, m, t, level, vpn, stop)
  {
    hide Depth;
  }

  lemma OneBuilt(m: Tables, t: nat, level: nat, vpn: nat, f: nat, stop: nat)
    requires 1 < level && stop < level && t in m && |m[t]| == NPT && !m[t][Ptx(vpn, level)].present && f !in m
    ensures Built(m, WithTable(m, t, Ptx(vpn, level), f), t, level, vpn, stop)
  {
    hide Ptx, NewLinks, Extends;
    var i := Ptx(vpn, level);
    var r := WithTable(m, t, i, f);
    assert r.Keys == m.Keys + {f};
    NewTable(m, t, i, f);
    assert Depth(r, f, level - 1, vpn) == level - 1;
  }

  lemma NewTable(m: Tables, t: nat, i: nat, f: nat)
    requires t in m && |m[t]| == NPT && i < NPT && !m[t][i].present && f !in m
    ensures Extends(m, WithTable(m, t, i, f)) && NewLinks(m, WithTable(m, t, i, f))
  {
  }

  lemma BuiltChain(m0: Tables, m1: Tables, m2: Tables, t: nat, c: nat, level: nat, vpn: nat, stop: nat)
    requires 1 < level && Built(m0, m1, t, level, vpn, stop) && Built(m1, m2, c, level - 1, vpn, stop)
    requires t in m1 && |m1[t]| == NPT
    requires var e := m1[t][Ptx(vpn, level)]; e.present && !e.large && e.frame == c
    ensures Built(m0, m2, t, level, vpn, stop)
  {
    hide Ptx, Extends, NewLinks;
    ExtendsChain(m0, m1, m2);
    LinksChain(m0, m1, m2);
    assert Depth(m1, t, level, vpn) == Depth(m1, c, level - 1, vpn);
    assert Depth(m2, t, level, vpn) == Depth(m2, c, level - 1, vpn) by { Kept(m1, m2, t, Ptx(vpn, level)); }
  }

  lemma Kept(m: Tables, r: Tables, u: nat, i: nat)
    requires Extends(m, r) && u in m && i < |m[u]| && m[u][i].present
    ensures u in r && |r[u]| == |m[u]| && r[u][i] == m[u][i]
  {
  }

  lemma ExtendsChain(m0: Tables, m1: Tables, m2: Tables)
    requires Extends(m0, m1) && Extends(m1, m2)
    ensures Extends(m0, m2)
  {
  }

  lemma LinksChain(m0: Tables, m1: Tables, m2: Tables)
    requires Extends(m0, m1) && NewLinks(m0, m1) && NewLinks(m1, m2)
    ensures NewLinks(m0, m2)
  {
    forall u, i | u in m2 && 0 <= i < |m2[u]| && m2[u][i].present && !m2[u][i].large && m2[u][i].frame in m0
      ensures u in m0 && i < |m0[u]| && m0[u][i] == m2[u][i]
    {
      assert u in m1 && m1[u][i] == m2[u][i];
    }
  }

  // --------------------------------------------------------- places reached

  /** How many places there are at a level below the top. */
  function Width(level: nat): nat {
    match level
    case 1 => 0x800_0000
    case 2 => 0x4_0000
    case _ => 512
  }

  /** The first page under a place. */
  function FirstPage(l: Loc): nat {
    l.prefix * Span(l.level + 1)
  }

  predicate IsReached(m: Tables, root: nat, l: Loc) {
    1 <= l.level <= 3 && l.prefix < Width(l.level) && WalkTo(m, root, 4, FirstPage(l), l.level).Some?
  }

  /** The places below the top level where a walk from root meets a table. */
  ghost function Reached(m: Tables, root: nat): set<Loc> {
    set k: nat, p: nat | 1 <= k <= 3 && p < Width(k) && IsReached(m, root, Loc(k, p)) :: Loc(k, p)
  }

  lemma InReached(m: Tables, root: nat)
    ensures forall l :: l in Reached(m, root) <==> IsReached(m, root, l)
  {
  }

  /** The place on the walk to vpn at level k. */
  function Step(vpn: nat, k: nat): Loc {
    Loc(k, vpn / Span(k + 1))
  }

  /** The places on the walk to vpn at levels [a, b). */
  function Steps(vpn: nat, a: nat, b: nat): set<Loc> {
    set k: nat | a <= k < b :: Step(vpn, k)
  }

  lemma InSteps(vpn: nat, a: nat, b: nat)
    ensures forall l :: l in Steps(vpn, a, b) <==> a <= l.level < b && l == Step(vpn, l.level)
  {
  }

  lemma MoreSteps(vpn: nat, a: nat, b: nat)
    requires a <= b
    ensures Step(vpn, b) !in Steps(vpn, a, b) && Steps(vpn, a, b + 1) == Steps(vpn, a, b) + {Step(vpn, b)}
  {
    hide Span, Steps;
    InSteps(vpn, a, b);
    InSteps(vpn, a, b + 1);
  }

  lemma {:induction false} StepsSize(vpn: nat, a: nat, b: nat)
    requires a <= b
    ensures |Steps(vpn, a, b)| == b - a
    decreases b - a
  {
    hide Steps, Step;
    if a < b {
      StepsSize(vpn, a, b - 1);
      MoreSteps(vpn, a, b - 1);
    } else {
      InSteps(vpn, a, b);
      assert Steps(vpn, a, b) == {};
    }
  }

  /** A page and the first page of a place on its walk. */
  lemma SamePlace(vpn: nat, k: nat)
    requires 1 <= k <= 3 && vpn < Span(5)
    ensures var l := Loc(k, vpn / Span(k + 1));
            l.prefix < Width(k) && FirstPage(l) / Span(k + 1) == vpn / Span(k + 1) && FirstPage(l) < Span(5)
  {
  }

  lemma OnWalk(m: Tables, root: nat, vpn: nat, k: nat)
    requires 1 <= k <= 3 && vpn < Span(5)
    ensures IsReached(m, root, Loc(k, vpn / Span(k + 1))) <==> Depth(m, root, 4, vpn) <= k
  {
    hide WalkTo, Depth, Width;
    SamePlace(vpn, k);
    WalkSame(m, root, 4, FirstPage(Loc(k, vpn / Span(k + 1))), vpn, k);
    DepthWalk(m, root, 4, vpn, k);
  }

  /** A walk in r that ends at a table of m is a walk in m. */
  lemma {:induction false} OldWalk(m: Tables, r: Tables, t: nat, level: nat, vpn: nat, k: nat)
    requires Extends(m, r) && NewLinks(m, r) && k <= level && WalkTo(r, t, level, vpn, k).Some?
    ensures WalkTo(r, t, level, vpn, k).value in m ==> WalkTo(m, t, level, vpn, k) == WalkTo(r, t, level, vpn, k)
    ensures t !in m ==> WalkTo(r, t, level, vpn, k).value !in m
    decreases level
  {
    hide Ptx;
    if k < level {
      OldWalk(m, r, r[t][Ptx(vpn, level)].frame, level - 1, vpn, k);
    }
  }

  lemma {:induction false} WalkStays(m: Tables, r: Tables, t: nat, level: nat, vpn: nat, k: nat)
    requires Extends(m, r) && k <= level && WalkTo(m, t, level, vpn, k).Some?
    ensures WalkTo(r, t, level, vpn, k) == WalkTo(m, t, level, vpn, k)
    decreases level
  {
    hide Ptx;
    if k < level {
      WalkStays(m, r, m[t][Ptx(vpn, level)].frame, level - 1, vpn, k);
    }
  }

  /** What a walk to vpn that built tables reaches more: the levels it got deeper. */
  lemma BuiltReach(m: Tables, r: Tables, pos: map<nat, Loc>, root: nat, vpn: nat, stop: nat)
    requires Built(m, r, root, 4, vpn, stop) && vpn < Span(5) && Wf(r, pos) && root in pos && pos[root] == Loc(4, 0)
    requires forall t :: t in pos && t !in m ==> Through(pos[t], vpn)
    ensures Reached(r, root) == Reached(m, root) + Steps(vpn, Depth(r, root, 4, vpn), Depth(m, root, 4, vpn))
    ensures |r.Keys| + |Reached(m, root)| == |m.Keys| + |Reached(r, root)|
  {
    hide Depth, IsReached, Extends, NewLinks, Wf, Through, Reached, Steps;
    var a, b := Depth(r, root, 4, vpn), Depth(m, root, 4, vpn);
    InReached(m, root);
    InReached(r, root);
    forall l: Loc
      ensures l in Reached(r, root) <==> l in Reached(m, root) || l in Steps(vpn, a, b)
      ensures l in Steps(vpn, a, b) ==> l !in Reached(m, root)
    {
      ReachedHow(m, r, pos, root, vpn, l);
    }
    DepthDown(m, r, root, vpn);
    StepsSize(vpn, a, b);
    assert |Reached(m, root) + Steps(vpn, a, b)| == |Reached(m, root)| + |Steps(vpn, a, b)|;
  }

  lemma DepthDown(m: Tables, r: Tables, root: nat, vpn: nat)
    requires Extends(m, r)
    ensures 1 <= Depth(r, root, 4, vpn) <= Depth(m, root, 4, vpn) <= 4
  {
    hide Depth, Extends;
    var k := Depth(m, root, 4, vpn);
    DepthWalk(m, root, 4, vpn, k);
    WalkStays(m, r, root, 4, vpn, k);
    DepthWalk(r, root, 4, vpn, k);
  }

  lemma ReachedHow(m: Tables, r: Tables, pos: map<nat, Loc>, root: nat, vpn: nat, l: Loc)
    requires Extends(m, r) && NewLinks(m, r) && vpn < Span(5) && Wf(r, pos) && root in pos && pos[root] == Loc(4, 0)
    requires forall t :: t in pos && t !in m ==> Through(pos[t], vpn)
    ensures var a, b := Depth(r, root, 4, vpn), Depth(m, root, 4, vpn);
            && (IsReached(r, root, l) <==> IsReached(m, root, l) || l in Steps(vpn, a, b))
            && (l in Steps(vpn, a, b) ==> !IsReached(m, root, l))
  {
    hide Depth, WalkTo, Extends, NewLinks, Wf, Width, Steps;
    DepthDown(m, r, root, vpn);
    InSteps(vpn, Depth(r, root, 4, vpn), Depth(m, root, 4, vpn));
    if l.level == 1 || l.level == 2 || l.level == 3 {
      OnWalk(m, root, vpn, l.level);
      OnWalk(r, root, vpn, l.level);
      if IsReached(m, root, l) {
        WalkStays(m, r, root, 4, FirstPage(l), l.level);
      } else if IsReached(r, root, l) {
        NewlyReached(m, r, pos, root, vpn, l);
      }
    }
  }

  lemma NewlyReached(m: Tables, r: Tables, pos: map<nat, Loc>, root: nat, vpn: nat, l: Loc)
    requires Extends(m, r) && NewLinks(m, r) && vpn < Span(5) && Wf(r, pos) && root in pos && pos[root] == Loc(4, 0)
    requires forall t :: t in pos && t !in m ==> Through(pos[t], vpn)
    requires IsReached(r, root, l) && !IsReached(m, root, l)
    ensures l == Step(vpn, l.level)
  {
    hide WalkTo, Extends, NewLinks, Wf, Width;
    var w := FirstPage(l);
    assert Through(pos[root], w) by { InTop(l); }
    WalkPlace(r, pos, root, w, l.level);
    OldWalk(m, r, root, 4, w, l.level);
    var t := WalkTo(r, root, 4, w, l.level).value;
    assert Through(pos[t], vpn) && Through(pos[t], w);
    assert w / Span(l.level + 1) == l.prefix by { InTop(l); }
  }

  lemma InTop(l: Loc)
    requires 1 <= l.level <= 3 && l.prefix < Width(l.level)
    ensures FirstPage(l) / Span(5) == 0 && FirstPage(l) / Span(l.level + 1) == l.prefix
  {
  }

  // --------------------------------------------------------- writing a leaf

  predicate IsLink(e: Pte) {
    e.present && !e.large
  }

  /** An entry that neither was nor becomes a link is no matter to any walk. */
  lemma {:induction false} WalkKeeps(m: Tables, pos: map<nat, Loc>, u: nat, i: nat, e: Pte, t: nat, vpn: nat, k: nat)
    requires Wf(m, pos) && u in pos && u in m && |m[u]| == NPT && i < NPT && t in pos && 1 <= k <= pos[t].level
    requires pos[u].level == 1 || (!IsLink(m[u][i]) && !IsLink(e))
    ensures WalkTo(WithEntry(m, u, i, e), t, pos[t].level, vpn, k) == WalkTo(m, t, pos[t].level, vpn, k)
    decreases pos[t].level
  {
    hide Ptx;
    var l := pos[t];
    assert TableOk(pos, l, m[t]);
    if k < l.level {
      var j := Ptx(vpn, l.level);
      assert EntryOk(pos, l, j, m[t][j]);
      if IsLink(m[t][j]) {
        WalkKeeps(m, pos, u, i, e, m[t][j].frame, vpn, k);
      }
    }
  }

  lemma LeafReach(m: Tables, pos: map<nat, Loc>, u: nat, i: nat, e: Pte, root: nat)
    requires Wf(m, pos) && u in pos && u in m && |m[u]| == NPT && i < NPT && root in pos && pos[root] == Loc(4, 0)
    requires pos[u].level == 1 || (!IsLink(m[u][i]) && !IsLink(e))
    ensures Reached(WithEntry(m, u, i, e), root) == Reached(m, root)
  {
    hide WalkTo, Wf, IsLink, Reached;
    InReached(m, root);
    InReached(WithEntry(m, u, i, e), root);
    forall l: Loc
      ensures IsReached(WithEntry(m, u, i, e), root, l) <==> IsReached(m, root, l)
    {
      if 1 <= l.level <= 3 {
        WalkKeeps(m, pos, u, i, e, root, FirstPage(l), l.level);
      }
    }
  }

  /** Where the walk ends no table hangs. */
  lemma {:induction false} EndOfWalk(m: Tables, t: nat, level: nat, vpn: nat, u: nat)
    requires 1 <= level && WalkTo(m, t, level, vpn, Depth(m, t, level, vpn)) == Some(u)
    requires u in m && |m[u]| == NPT && 1 < Depth(m, t, level, vpn)
    ensures !IsLink(m[u][Ptx(vpn, Depth(m, t, level, vpn))])
    decreases level
  {
    hide Ptx;
    var d := Depth(m, t, level, vpn);
    if d < level {
      EndOfWalk(m, m[t][Ptx(vpn, level)].frame, level - 1, vpn, u);
    }
  }

  /**
   What one leaf costs, where no table hangs below it: a frame for each place on its
   walk that is not yet reached; without so many, it is not written.
   */
  ghost predicate LeafCount(m: Tables, r: Tables, root: nat, vpn: nat, stop: nat, ok: bool) {
    stop <= Depth(m, root, 4, vpn) ==>
      && |r.Keys| + |Reached(m, root)| == |m.Keys| + |Reached(r, root)| && Reached(m, root) <= Reached(r, root)
      && if ok then Reached(r, root) == Reached(m, root) + Steps(vpn, stop, 4)
         else Reached(r, root) < Reached(m, root) + Steps(vpn, stop, 4)
  }

  /** The places above the end of a walk are reached, those below are not. */
  lemma WalkedSteps(m: Tables, root: nat, vpn: nat)
    requires vpn < Span(5)
    ensures Steps(vpn, Depth(m, root, 4, vpn), 4) <= Reached(m, root)
    ensures forall k :: 1 <= k < Depth(m, root, 4, vpn) && k <= 3 ==> Step(vpn, k) !in Reached(m, root)
  {
    hide Depth, IsReached, Reached, Steps;
    InReached(m, root);
    InSteps(vpn, Depth(m, root, 4, vpn), 4);
    assert Depth(m, root, 4, vpn) >= 1;
    forall k: nat | 1 <= k <= 3
      ensures Step(vpn, k) in Reached(m, root) <==> Depth(m, root, 4, vpn) <= k
    {
      OnWalk(m, root, vpn, k);
    }
  }

  lemma WalkCount(m: Tables, r: Tables, pos: map<nat, Loc>, root: nat, vpn: nat, stop: nat)
    requires Built(m, r, root, 4, vpn, stop) && vpn < Span(5) && Wf(r, pos) && root in pos && pos[root] == Loc(4, 0)
    requires forall t :: t in pos && t !in m ==> Through(pos[t], vpn)
    requires 1 <= stop <= 3 && stop <= Depth(m, root, 4, vpn)
    ensures LeafCount(m, r, root, vpn, stop, WalkTo(r, root, 4, vpn, stop).Some?)
    ensures stop <= Depth(r, root, 4, vpn)
  {
    hide Depth, IsReached, Extends, NewLinks, Wf, Through, WalkTo, Reached, Steps, Step;
    var a, b := Depth(r, root, 4, vpn), Depth(m, root, 4, vpn);
    BuiltReach(m, r, pos, root, vpn, stop);
    DepthDown(m, r, root, vpn);
    WalkedSteps(m, root, vpn);
    WalkedSteps(r, root, vpn);
    DepthWalk(r, root, 4, vpn, stop);
    HowFar(Reached(m, root), Reached(r, root), vpn, a, b, stop);
  }

  lemma HowFar(s: set<Loc>, t: set<Loc>, vpn: nat, a: nat, b: nat, stop: nat)
    requires stop <= a <= b <= 4 && t == s + Steps(vpn, a, b) && Steps(vpn, b, 4) <= s
    requires stop < a ==> Step(vpn, stop) !in t
    ensures s <= t && if a == stop then t == s + Steps(vpn, stop, 4) else t < s + Steps(vpn, stop, 4)
  {
    hide Span, Steps;
    InSteps(vpn, stop, 4);
    InSteps(vpn, stop, a);
    InSteps(vpn, a, b);
    InSteps(vpn, b, 4);
    InSteps(vpn, stop, stop);
    assert Steps(vpn, stop, 4) == Steps(vpn, stop, a) + Steps(vpn, a, b) + Steps(vpn, b, 4);
    assert Steps(vpn, stop, stop) == {};
    assert stop < a ==> Step(vpn, stop) in Steps(vpn, stop, 4);
  }
}
