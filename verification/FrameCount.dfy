/**
 How many frames it takes to map pages of an address space: one for each page, and
 one for each page table on their walks that is not there yet.
 */
module FrameCount {
  import opened Arith
  import opened Basics
  import opened PageTable
  import opened PageTree
  import opened Vm

  // ------------------------------------------------- which tables there are

  /** The places below the top level where root has a table. */
  ghost function Places(sh: Shape, root: nat): (s: set<Loc>)
    ensures forall l :: l in s <==> l.level < 4 && Has(sh, root, l)
  {
    set t | t in sh.own && t in sh.pos && sh.own[t] == root && sh.pos[t].level < 4 :: sh.pos[t]
  }

  /** The tables on the walk to page v. */
  function Path(v: nat): (s: set<Loc>)
    ensures forall l :: l in s <==> 1 <= l.level <= 3 && Through(l, v)
  {
    {Loc(1, v / Span(2)), Loc(2, v / Span(3)), Loc(3, v / Span(4))}
  }

  /** The tables on the walks to pages [lo, hi). */
  function Paths(lo: nat, hi: nat): set<Loc> {
    if hi <= lo then {} else Paths(lo, hi - 1) + Path(hi - 1)
  }

  ghost predicate OnSome(l: Loc, lo: nat, hi: nat) {
    exists v: nat :: lo <= v < hi && l in Path(v)
  }

  lemma {:induction false} InPaths(lo: nat, hi: nat, l: Loc)
    ensures l in Paths(lo, hi) <==> OnSome(l, lo, hi)
  {
    hide Path, OnSome, Paths;
    OnNone(l, lo, hi);
    if hi > lo {
      InPaths(lo, hi - 1, l);
      PathsNext(lo, hi - 1);
      OnSomeNext(l, lo, hi - 1);
    }
  }

  lemma OnNone(l: Loc, lo: nat, hi: nat)
    ensures hi <= lo ==> !OnSome(l, lo, hi) && Paths(lo, hi) == {}
  {
  }

  lemma OnSomeNext(l: Loc, lo: nat, v: nat)
    requires lo <= v
    ensures OnSome(l, lo, v + 1) <==> OnSome(l, lo, v) || l in Path(v)
  {
    hide Path;
    if OnSome(l, lo, v) {
      var w: nat :| lo <= w < v && l in Path(w);
      assert lo <= w < v + 1 && l in Path(w);
    }
  }

  lemma {:induction false} WalkHigher(m: Tables, t: nat, level: nat, v: nat, k: nat, j: nat)
    requires k <= j <= level && WalkTo(m, t, level, v, k).Some?
    ensures WalkTo(m, t, level, v, j).Some?
    decreases level
  {
    if j < level {
      WalkHigher(m, m[t][Ptx(v, level)].frame, level - 1, v, k, j);
    }
  }

  lemma {:induction false} WalkFurther(m: Tables, t: nat, level: nat, v: nat, k: nat, u: nat, c: nat)
    requires k < level && WalkTo(m, t, level, v, k + 1) == Some(u) && u in m && |m[u]| == NPT
    requires LinksTo(m[u][Ptx(v, k + 1)], c)
    ensures WalkTo(m, t, level, v, k) == Some(c)
    decreases level
  {
    if level > k + 1 {
      WalkFurther(m, m[t][Ptx(v, level)].frame, level - 1, v, k, u, c);
    }
  }

  /** A walk that gets to the lowest table meets a table at every place on its path. */
  lemma WalkHas(m: Tables, sh: Shape, root: nat, v: nat)
    requires ForestOk(m, sh) && IsRoot(sh, root) && root !in sh.wide && v < USERPAGES && WalkTo(m, root, 4, v, 1).Some?
    ensures Path(v) <= Places(sh, root)
  {
    hide NodeOk, OnePerPlace, WalkTo, Ptx;
    UserIndex(v);
    assert Through(sh.pos[root], v);
    forall l | l in Path(v)
      ensures Has(sh, root, l)
    {
      WalkHigher(m, root, 4, v, 1, l.level);
      WalkPlace(m, sh.pos, root, v, l.level);
      WalkOwn(m, sh, root, v, l.level);
    }
  }

  /** A user table is met by every walk through its place. */
  lemma {:induction false} HasWalk(m: Tables, sh: Shape, root: nat, v: nat, k: nat, t: nat)
    requires ForestOk(m, sh) && IsRoot(sh, root) && root !in sh.wide && v < USERPAGES && 1 <= k <= 4
    requires t in sh.own && t in sh.pos && sh.own[t] == root && sh.pos[t].level == k && Through(sh.pos[t], v)
    ensures WalkTo(m, root, 4, v, k) == Some(t)
    decreases 4 - k
  {
    hide OnePerPlace, WalkTo, Ptx, EntryOwn;
    assert NodeOk(m, sh, t);
    if k == 4 {
      assert WalkTo(m, root, 4, v, 4) == Some(root) by { WalkNowhere(m, root, v); }
    } else {
      var p := sh.up[t];
      Upward(sh.pos[t], v);
      HasWalk(m, sh, root, v, k + 1, p);
      WalkFurther(m, root, 4, v, k, p, t);
    }
  }

  lemma WalkNowhere(m: Tables, root: nat, v: nat)
    ensures WalkTo(m, root, 4, v, 4) == Some(root)
  {
  }

  /** The entry above a table that v goes through is the one v goes through. */
  lemma Upward(l: Loc, v: nat)
    requires Through(l, v) && l.level < 4
    ensures Through(Loc(l.level + 1, l.prefix / NPT), v) && l.prefix % NPT == Ptx(v, l.level + 1)
  {
    SpanSplit(l.level + 1, v);
  }

  /** What a walk for page v adds: places on its path, all of them if it succeeds, not all if it fails. */
  lemma WalkAdds(m0: Tables, sh0: Shape, m1: Tables, sh1: Shape, root: nat, v: nat)
    requires ForestOk(m0, sh0) && ForestOk(m1, sh1) && IsRoot(sh1, root) && root !in sh1.wide && v < USERPAGES
    requires Evolves(m0, sh0, m1, sh1, root) && NewOnPath(sh0, sh1, v)
    ensures Places(sh0, root) <= Places(sh1, root) <= Places(sh0, root) + Path(v)
    ensures WalkTo(m1, root, 4, v, 1).Some? <==> Places(sh1, root) == Places(sh0, root) + Path(v)
  {
    hide ForestOk, Evolves, WalkTo, Path, Places, NewOnPath;
    PlacesStay(m0, sh0, m1, sh1, root, v);
    if WalkTo(m1, root, 4, v, 1).Some? {
      WalkHas(m1, sh1, root, v);
    } else if Places(sh1, root) == Places(sh0, root) + Path(v) {
      LowestHas(m1, sh1, root, v);
    }
  }

  lemma LowestHas(m: Tables, sh: Shape, root: nat, v: nat)
    requires ForestOk(m, sh) && IsRoot(sh, root) && root !in sh.wide && v < USERPAGES && Path(v) <= Places(sh, root)
    ensures WalkTo(m, root, 4, v, 1).Some?
  {
    hide NodeOk, OnePerPlace, WalkTo, Wf, Places;
    var l := Loc(1, v / Span(2));
    assert l in Path(v) && Has(sh, root, l);
    var t :| t in sh.own && t in sh.pos && sh.own[t] == root && sh.pos[t] == l;
    HasWalk(m, sh, root, v, 1, t);
  }

  lemma PlacesStay(m0: Tables, sh0: Shape, m1: Tables, sh1: Shape, root: nat, v: nat)
    requires ForestOk(m0, sh0) && ForestOk(m1, sh1) && Evolves(m0, sh0, m1, sh1, root) && NewOnPath(sh0, sh1, v)
    ensures Places(sh0, root) <= Places(sh1, root) <= Places(sh0, root) + Path(v)
  {
    hide NodeOk, OnePerPlace, Wf, Path, Places, Through;
    forall l | l in Places(sh0, root)
      ensures Has(sh1, root, l)
    {
      var t :| t in sh0.own && t in sh0.pos && sh0.own[t] == root && sh0.pos[t] == l;
      assert t in sh1.own && t in sh1.pos && sh1.own[t] == root && sh1.pos[t] == l;
    }
    forall l | l in Places(sh1, root)
      ensures l in Places(sh0, root) + Path(v)
    {
      var t :| t in sh1.own && t in sh1.pos && sh1.own[t] == root && sh1.pos[t] == l;
      assert TableOk(sh1.pos, sh1.pos[t], m1[t]) by { Leveled(m1, sh1, t); }
      assert t in sh0.own && t in sh0.pos ==> Has(sh0, root, l);
    }
  }

  lemma Leveled(m: Tables, sh: Shape, t: nat)
    requires ForestOk(m, sh) && t in sh.pos
    ensures TableOk(sh.pos, sh.pos[t], m[t])
  {
    hide NodeOk, OnePerPlace;
  }

  // ------------------------------------------------------------- counting

  ghost function PlacesAt(sh: Shape, ts: set<nat>): set<Loc>
    requires forall t :: t in ts ==> t in sh.pos
  {
    set t | t in ts :: sh.pos[t]
  }

  /** As many places as tables. */
  lemma {:induction false} OneEach(sh: Shape, root: nat, ts: set<nat>)
    requires OnePerPlace(sh) && root !in sh.wide
    requires forall t :: t in ts ==> t in sh.pos && t in sh.own && sh.own[t] == root
    ensures |PlacesAt(sh, ts)| == |ts|
    decreases ts
  {
    if ts != {} {
      var t :| t in ts;
      var rest := ts - {t};
      OneEach(sh, root, rest);
      forall u | u in rest
        ensures sh.pos[u] != sh.pos[t]
      {
        assert sh.pos[u] == sh.pos[t] ==> Twins(sh, t, u);
      }
      assert PlacesAt(sh, ts) == PlacesAt(sh, rest) + {sh.pos[t]};
    }
  }

  /** A change inside root's tree adds as many tables as places. */
  lemma TableCount(m0: Tables, sh0: Shape, m1: Tables, sh1: Shape, root: nat)
    requires ForestOk(m0, sh0) && ForestOk(m1, sh1) && IsRoot(sh0, root) && root !in sh0.wide
    requires Evolves(m0, sh0, m1, sh1, root)
    ensures Places(sh0, root) <= Places(sh1, root)
    ensures |m1.Keys| + |Places(sh0, root)| == |m0.Keys| + |Places(sh1, root)|
  {
    hide ForestOk, Evolves, Novel, Places, PlacesAt, OnePerPlace, IsRoot;
    NovelTables(m0, sh0, m1, sh1, root);
    OneEach(sh1, root, m1.Keys - m0.Keys);
    NewPlaces(sh0, sh1, root, m1.Keys - m0.Keys);
    Remainder(m0.Keys, m1.Keys);
  }

  lemma Remainder(a: set<nat>, b: set<nat>)
    requires a <= b
    ensures |b| == |a| + |b - a|
  {
    assert b == a + (b - a);
  }

  /** sh1 is sh0 with the tables novel added to root's tree. */
  ghost predicate Novel(sh0: Shape, sh1: Shape, root: nat, novel: set<nat>) {
    && OnePerPlace(sh1) && root !in sh1.wide && sh0.own.Keys == sh0.pos.Keys && sh1.own.Keys == sh1.pos.Keys
    && (forall t :: t in sh0.pos ==> t in sh1.pos && sh1.pos[t] == sh0.pos[t] && sh1.own[t] == sh0.own[t])
    && (forall t :: t in sh1.pos <==> t in sh0.pos || t in novel)
    && forall t :: t in novel ==> t !in sh0.pos && sh1.own[t] == root && sh1.pos[t].level < 4
  }

  lemma NovelTables(m0: Tables, sh0: Shape, m1: Tables, sh1: Shape, root: nat)
    requires ForestOk(m0, sh0) && ForestOk(m1, sh1) && IsRoot(sh0, root) && root !in sh0.wide
    requires Evolves(m0, sh0, m1, sh1, root)
    ensures Novel(sh0, sh1, root, m1.Keys - m0.Keys) && OnePerPlace(sh1) && root !in sh1.wide && m0.Keys <= m1.Keys
    ensures forall t :: t in m1.Keys - m0.Keys ==> t in sh1.pos && t in sh1.own && sh1.own[t] == root
  {
    hide NodeOk, OnePerPlace, Wf;
    forall t | t in m1.Keys - m0.Keys
      ensures t in sh1.pos && sh1.own[t] == root && sh1.pos[t].level < 4
    {
      BelowTop(m1, sh1, root, t);
    }
  }

  lemma BelowTop(m: Tables, sh: Shape, root: nat, t: nat)
    requires ForestOk(m, sh) && root !in sh.wide && t in m && t != root && sh.own[t] == root
    ensures sh.pos[t].level < 4
  {
    hide OnePerPlace, UpOk, EntryOwn;
    assert NodeOk(m, sh, t) && TableOk(sh.pos, sh.pos[t], m[t]);
  }

  lemma NewPlaces(sh0: Shape, sh1: Shape, root: nat, novel: set<nat>)
    requires Novel(sh0, sh1, root, novel)
    ensures forall t :: t in novel ==> t in sh1.pos
    ensures Places(sh0, root) <= Places(sh1, root)
    ensures |Places(sh1, root)| == |Places(sh0, root)| + |PlacesAt(sh1, novel)|
  {
    hide OnePerPlace, Places, PlacesAt;
    var added := PlacesAt(sh1, novel);
    forall l | l in Places(sh0, root)
      ensures l in Places(sh1, root) && l !in added
    {
      OldPlace(sh0, sh1, root, novel, l);
    }
    forall l | l in Places(sh1, root)
      ensures l in Places(sh0, root) + added
    {
      EitherPlace(sh0, sh1, root, novel, l);
    }
    forall l | l in added
      ensures l in Places(sh1, root)
    {
      NewPlace(sh0, sh1, root, novel, l);
    }
    assert Places(sh1, root) == Places(sh0, root) + added;
  }

  lemma OldPlace(sh0: Shape, sh1: Shape, root: nat, novel: set<nat>, l: Loc)
    requires Novel(sh0, sh1, root, novel) && l in Places(sh0, root)
    ensures l in Places(sh1, root) && l !in PlacesAt(sh1, novel)
  {
    hide Places;
    var t :| t in sh0.own && t in sh0.pos && sh0.own[t] == root && sh0.pos[t] == l;
    assert t in sh1.own && t in sh1.pos && sh1.own[t] == root && sh1.pos[t] == l;
    assert Has(sh1, root, l);
    forall u | u in novel
      ensures sh1.pos[u] != l
    {
      assert sh1.pos[u] == l ==> Twins(sh1, t, u);
    }
  }

  lemma EitherPlace(sh0: Shape, sh1: Shape, root: nat, novel: set<nat>, l: Loc)
    requires Novel(sh0, sh1, root, novel) && l in Places(sh1, root)
    ensures l in Places(sh0, root) || l in PlacesAt(sh1, novel)
  {
    hide OnePerPlace, Places;
    var t :| t in sh1.own && t in sh1.pos && sh1.own[t] == root && sh1.pos[t] == l;
    assert t in sh0.pos ==> Has(sh0, root, l);
  }

  lemma NewPlace(sh0: Shape, sh1: Shape, root: nat, novel: set<nat>, l: Loc)
    requires Novel(sh0, sh1, root, novel) && l in PlacesAt(sh1, novel)
    ensures l in Places(sh1, root)
  {
    hide OnePerPlace, Places;
    var t :| t in novel && sh1.pos[t] == l;
    assert Has(sh1, root, l);
  }

  /** The frames it takes to map pages [lo, hi) of root: the pages, and the tables that are missing. */
  ghost function Cost(sh: Shape, root: nat, lo: nat, hi: nat): nat
    requires lo <= hi
  {
    hi - lo + |Paths(lo, hi) - Places(sh, root)|
  }

  lemma Subset(a: set<Loc>, b: set<Loc>)
    requires a <= b
    ensures |a| <= |b| && (a != b ==> |a| < |b|)
  {
    assert b == a + (b - a);
    assert |b| == |a| + |b - a|;
    assert a != b ==> b - a != {};
  }

  lemma Difference(a: set<Loc>, b: set<Loc>)
    ensures |a + b| == |a| + |b - a|
  {
    assert a + b == a + (b - a);
  }

  lemma {:induction false} PathsGrow(lo: nat, v: nat, hi: nat)
    requires lo <= v <= hi
    ensures Paths(lo, v) <= Paths(lo, hi)
    decreases hi
  {
    hide Path, Paths;
    if v < hi {
      PathsGrow(lo, v, hi - 1);
      PathsNext(lo, hi - 1);
    }
  }

  /** The tables for pages [lo, hi) were added where they were missing. */
  ghost predicate Built(sh0: Shape, sh1: Shape, root: nat, lo: nat, hi: nat) {
    Places(sh1, root) == Places(sh0, root) + Paths(lo, hi)
  }

  lemma BuiltNone(sh: Shape, root: nat, lo: nat)
    ensures Built(sh, sh, root, lo, lo)
  {
    hide Places;
  }

  lemma BuiltNext(sh0: Shape, sh1: Shape, sh2: Shape, root: nat, lo: nat, v: nat)
    requires lo <= v && Built(sh0, sh1, root, lo, v) && Places(sh2, root) == Places(sh1, root) + Path(v)
    ensures Built(sh0, sh2, root, lo, v + 1)
  {
    hide Places, Path;
    PathsNext(lo, v);
  }

  /** Pages [lo, hi) were mapped. */
  lemma Paid(sh0: Shape, sh1: Shape, root: nat, lo: nat, hi: nat)
    requires lo <= hi && Built(sh0, sh1, root, lo, hi)
    ensures hi - lo + |Places(sh1, root)| - |Places(sh0, root)| == Cost(sh0, root, lo, hi)
  {
    Difference(Places(sh0, root), Paths(lo, hi));
  }

  /**
   Page v could not be mapped after [lo, v) were: for want of a frame for itself, or,
   that one held, for want of a table.
   */
  ghost predicate RanOut(sh1: Shape, sh2: Shape, root: nat, v: nat, held: nat) {
    if held == 0 then Places(sh2, root) == Places(sh1, root)
    else held == 1 && Places(sh2, root) < Places(sh1, root) + Path(v)
  }

  lemma FallsShort(sh0: Shape, sh1: Shape, sh2: Shape, root: nat, lo: nat, v: nat, hi: nat, held: nat)
    requires lo <= v < hi && Built(sh0, sh1, root, lo, v) && RanOut(sh1, sh2, root, v, held)
    ensures v - lo + held + |Places(sh2, root)| - |Places(sh0, root)| < Cost(sh0, root, lo, hi)
  {
    hide Places, Path, Paths;
    var a, b, c := Places(sh0, root), Places(sh2, root), Path(v);
    var p, q, r := Paths(lo, v), Paths(lo, v + 1), Paths(lo, hi);
    PathsNext(lo, v);
    PathsGrow(lo, v + 1, hi);
    Shortfall(a, b, c, p, q, r, held);
    Difference(a, r);
  }

  lemma PathsNext(lo: nat, v: nat)
    requires lo <= v
    ensures Paths(lo, v + 1) == Paths(lo, v) + Path(v)
  {
  }

  lemma Shortfall(a: set<Loc>, b: set<Loc>, c: set<Loc>, p: set<Loc>, q: set<Loc>, r: set<Loc>, held: nat)
    requires q == p + c && q <= r && if held == 0 then b == a + p else held == 1 && b < a + p + c
    ensures held + |b| < 1 + |a + r|
  {
    if held == 0 {
      Subset(b, a + r);
    } else {
      Subset(b, a + p + c);
      Subset(a + p + c, a + r);
    }
  }

  // ------------------------------------------------ from an empty user half

  /** n divided by d, rounded up. */
  function Up(n: nat, d: nat): nat
    requires d > 0
  {
    (n + d - 1) / d
  }

  /** The frames for pages [0, n) of a user half without tables. */
  function EmptyCost(n: nat): nat {
    n + Up(n, 512) + Up(n, 0x4_0000) + Up(n, 0x800_0000)
  }

  lemma UpNext(n: nat, d: nat)
    requires d == 512 || d == 0x4_0000 || d == 0x800_0000
    ensures Up(n + 1, d) == Up(n, d) + if n % d == 0 then 1 else 0
  {
  }

  /** The place of page v's table at level k is a new one exactly when v is the first page below it. */
  lemma FirstBelow(v: nat, k: nat)
    requires 1 <= k <= 3
    ensures Loc(k, v / Span(k + 1)) in Paths(0, v) <==> v % Span(k + 1) != 0
  {
    hide Path, Paths;
    var d := Span(k + 1);
    var l := Loc(k, v / d);
    InPaths(0, v, l);
    if v % d != 0 {
      Before(v, d);
      assert 0 <= v - 1 < v && l in Path(v - 1);
    } else {
      forall w: nat | w < v
        ensures l !in Path(w)
      {
        Earlier(w, v, d);
      }
    }
  }

  lemma Before(v: nat, d: nat)
    requires d > 0 && v % d != 0
    ensures v > 0 && (v - 1) / d == v / d
  {
    var q, o := v / d, v % d;
    assert v == q * d + o;
    DivIs(q, o - 1, d);
  }

  lemma Earlier(w: nat, v: nat, d: nat)
    requires d > 0 && w < v && v % d == 0
    ensures w / d < v / d
  {
    var q := v / d;
    assert v == q * d;
    Between(w, 0, q, d);
  }

  lemma NoPaths()
    ensures Paths(0, 0) == {} && Up(0, 512) == Up(0, 0x4_0000) == Up(0, 0x800_0000) == 0
  {
  }

  lemma {:induction false} EmptyPaths(n: nat)
    ensures |Paths(0, n)| == EmptyCost(n) - n
  {
    hide Paths, Up;
    assert Paths(0, 0) == {} && Up(0, 512) == Up(0, 0x4_0000) == Up(0, 0x800_0000) == 0 by { NoPaths(); }
    if n > 0 {
      var v := n - 1;
      EmptyPaths(v);
      var a, b, c := Loc(1, v / Span(2)), Loc(2, v / Span(3)), Loc(3, v / Span(4));
      FirstBelow(v, 1);
      FirstBelow(v, 2);
      FirstBelow(v, 3);
      UpNext(v, 512);
      UpNext(v, 0x4_0000);
      UpNext(v, 0x800_0000);
      PathsNext(0, v);
      AddThree(Paths(0, v), a, b, c);
    }
  }

  lemma AddThree(p: set<Loc>, a: Loc, b: Loc, c: Loc)
    requires a != b && b != c && c != a
    ensures |p + {a, b, c}| == |p| + (if a in p then 0 else 1) + (if b in p then 0 else 1) + (if c in p then 0 else 1)
  {
    AddOne(p, a);
    AddOne(p + {a}, b);
    AddOne(p + {a} + {b}, c);
    assert p + {a, b, c} == p + {a} + {b} + {c};
  }

  lemma AddOne(p: set<Loc>, a: Loc)
    ensures |p + {a}| == |p| + if a in p then 0 else 1
  {
    if a in p { assert p + {a} == p; }
  }

  lemma EmptyCosts(sh: Shape, root: nat, n: nat)
    requires Places(sh, root) == {}
    ensures Cost(sh, root, 0, n) == EmptyCost(n)
  {
    EmptyPaths(n);
    assert Paths(0, n) - {} == Paths(0, n);
  }
}
