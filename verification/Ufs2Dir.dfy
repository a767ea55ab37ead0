/**
 UFS2 directories (kern/ufs2.c): ufs2_lookup, ufs2_dirlink and ufs2_dirunlink over
 the 512-byte regions of a directory, as a map from names to inode numbers.
 */
module Ufs2Dir {
  import opened Bytes
  import opened DirRecords
  import opened DirSplit
  import opened Basics

  const DIRECTBLOCKS: nat := 12
  const ROOTINO: nat := 2
  const KINDDIR: Byte := 4
  const KINDREG: Byte := 8

  predicate AllTile(d: seq<Sector>) {
    forall i :: 0 <= i < |d| ==> Tiles(d[i], 0)
  }

  /** The live entries of the whole directory, in order. */
  function AllEntries(d: seq<Sector>): seq<Entry>
    requires AllTile(d)
  {
    if d == [] then [] else Entries(d[0], 0) + AllEntries(d[1..])
  }

  /** The inode number of the first entry with that name. */
  function Find(xs: seq<Entry>, name: Name): Option<nat> {
    if xs == [] then None else if xs[0].name == name then Some(xs[0].ino) else Find(xs[1..], name)
  }

  predicate NamesDiffer(xs: seq<Entry>) {
    forall i, j :: 0 <= i < j < |xs| ==> xs[i].name != xs[j].name
  }

  lemma {:induction false} FindNone(xs: seq<Entry>, name: Name)
    ensures Find(xs, name).None? <==> forall i :: 0 <= i < |xs| ==> xs[i].name != name
  {
    if xs != [] {
      FindNone(xs[1..], name);
      assert forall i :: 0 < i < |xs| ==> xs[i] == xs[1..][i - 1];
    }
  }

  lemma {:induction false} FindConcat(xs: seq<Entry>, ys: seq<Entry>, name: Name)
    ensures Find(xs + ys, name) == if Find(xs, name).Some? then Find(xs, name) else Find(ys, name)
  {
    if xs == [] {
      assert xs + ys == ys;
    } else {
      assert (xs + ys)[1..] == xs[1..] + ys;
      FindConcat(xs[1..], ys, name);
    }
  }

  /** Inserting a new name adds that name and keeps all others. */
  lemma InsertedFind(xs: seq<Entry>, ys: seq<Entry>, k: nat, e: Entry, name: Name)
    requires InsertedAt(xs, ys, k, e) && Find(xs, e.name).None?
    ensures Find(ys, name) == if name == e.name then Some(e.ino) else Find(xs, name)
  {
    hide Find;
    var a, b := xs[..k], xs[k..];
    assert xs == a + b && ys == a + ([e] + b);
    FindConcat(a, b, name);
    FindConcat(a, [e] + b, name);
    FindConcat([e], b, name);
    FindOne(e, name);
  }

  lemma FindOne(e: Entry, name: Name)
    ensures Find([e], name) == if name == e.name then Some(e.ino) else None
  {
    assert [e][1..] == [];
  }

  lemma InsertedNames(xs: seq<Entry>, ys: seq<Entry>, k: nat, e: Entry)
    requires InsertedAt(xs, ys, k, e) && Find(xs, e.name).None? && NamesDiffer(xs)
    ensures NamesDiffer(ys)
  {
    FindNone(xs, e.name);
    forall i, j | 0 <= i < j < |ys|
      ensures ys[i].name != ys[j].name
    {
      assert i != k ==> ys[i] == xs[if i < k then i else i - 1];
      assert j != k ==> ys[j] == xs[if j < k then j else j - 1];
    }
  }

  /** Removing an entry removes that name and keeps all others. */
  lemma RemovedFind(xs: seq<Entry>, ys: seq<Entry>, k: nat, e: Entry, name: Name)
    requires InsertedAt(ys, xs, k, e) && NamesDiffer(xs)
    ensures Find(ys, name) == if name == e.name then None else Find(xs, name)
    ensures Find(xs, e.name) == Some(e.ino) && NamesDiffer(ys)
  {
    assert xs[k] == e;
    forall i | 0 <= i < |ys|
      ensures ys[i] == xs[if i < k then i else i + 1] && ys[i].name != e.name
    {
    }
    FindNone(ys, e.name);
    InsertedFind(ys, xs, k, e, name);
    InsertedFind(ys, xs, k, e, e.name);
  }

  // --------------------------------------------------- one region in many

  lemma {:induction false} AllSplit(d: seq<Sector>, i: nat)
    requires AllTile(d) && i < |d|
    ensures AllEntries(d) == AllEntries(d[..i]) + (Entries(d[i], 0) + AllEntries(d[i + 1..]))
  {
    hide Entries, Tiles;
    if i == 0 {
      assert d[..0] == [] && d[0 + 1..] == d[1..];
    } else {
      AllSplit(d[1..], i - 1);
      assert d[1..][..i - 1] == d[..i][1..] && d[1..][i - 1 + 1..] == d[i + 1..] && d[..i][0] == d[0];
    }
  }

  lemma WithinAll(p: seq<Entry>, xs: seq<Entry>, ys: seq<Entry>, s: seq<Entry>, k: nat, e: Entry)
    requires InsertedAt(xs, ys, k, e)
    ensures InsertedAt(p + (xs + s), p + (ys + s), |p| + k, e)
  {
    assert ys + s == xs[..k] + [e] + (xs[k..] + s);
    assert (p + (xs + s))[..|p| + k] == p + xs[..k];
    assert (p + (xs + s))[|p| + k..] == xs[k..] + s;
  }

  /** Replacing region i by one that has one entry more, or one less. */
  lemma RegionChanged(d: seq<Sector>, i: nat, r': Sector, k: nat, e: Entry)
    requires AllTile(d) && i < |d| && Tiles(r', 0)
    ensures AllTile(d[i := r'])
    ensures InsertedAt(Entries(d[i], 0), Entries(r', 0), k, e) ==>
      InsertedAt(AllEntries(d), AllEntries(d[i := r']), |AllEntries(d[..i])| + k, e)
    ensures InsertedAt(Entries(r', 0), Entries(d[i], 0), k, e) ==>
      InsertedAt(AllEntries(d[i := r']), AllEntries(d), |AllEntries(d[..i])| + k, e)
  {
    hide Entries, Tiles, AllEntries, InsertedAt;
    var d' := d[i := r'];
    AllSplit(d, i);
    AllSplit(d', i);
    assert d'[..i] == d[..i] && d'[i + 1..] == d[i + 1..];
    var p, s := AllEntries(d[..i]), AllEntries(d[i + 1..]);
    if InsertedAt(Entries(d[i], 0), Entries(r', 0), k, e) {
      WithinAll(p, Entries(d[i], 0), Entries(r', 0), s, k, e);
    }
    if InsertedAt(Entries(r', 0), Entries(d[i], 0), k, e) {
      WithinAll(p, Entries(r', 0), Entries(d[i], 0), s, k, e);
    }
  }

  /** Clearing the inode number of a live record takes exactly its entry out. */
  lemma Cleared(r: Sector, o: nat)
    requires Tiles(r, 0) && LeadsTo(r, 0, o) && HeaderOk(r, o) && InoAt(r, o) != 0
    ensures var r': Sector := WriteLe32(r, o, 0);
            Tiles(r', 0) && InsertedAt(Entries(r', 0), Entries(r, 0), |EntriesTo(r, 0, o)|, EntryAt(r, o))
  {
    hide ReadLe16, EntryAt;
    var r': Sector := WriteLe32(r, o, 0);
    var end := o + LenAt(r, o);
    assert LenAt(r', o) == LenAt(r, o) && NameLenAt(r', o) == NameLenAt(r, o) && InoAt(r', o) == 0 by {
      LenOnly(r, r', o);
    }
    HoldsNothing(r', end);
    HoldsMore(r', o, end, [], []);
    Replaced(r, r', o, end);
    Taken(EntriesTo(r, 0, o), EntryAt(r, o), Entries(r, end));
  }

  lemma LenOnly(r: Sector, r': Sector, o: nat)
    requires o + HEADER <= REGION && forall i :: o + 4 <= i < o + HEADER ==> r'[i] == r[i]
    ensures LenAt(r', o) == LenAt(r, o)
  {
  }

  lemma Taken(a: seq<Entry>, e: Entry, c: seq<Entry>)
    ensures InsertedAt(a + ([] + c), a + ([e] + c), |a|, e)
  {
  }

  // ------------------------------------------------------------- scanning

  /** Does the record at o hold a live entry with that name? */
  predicate Matches(r: Sector, o: nat, name: Name)
    requires HeaderOk(r, o)
  {
    InoAt(r, o) != 0 && NameLenAt(r, o) == |name| && r[o + HEADER..o + HEADER + |name|] == name
  }

  lemma LiveFind(r: Sector, o: nat, name: Name)
    requires HeaderOk(r, o)
    ensures Find(Live(r, o), name) == if Matches(r, o, name) then Some(InoAt(r, o)) else None
    ensures Matches(r, o, name) ==> Live(r, o) == [EntryAt(r, o)] && EntryAt(r, o).name == name
  {
    hide ReadLe16, ReadLe32;
    if InoAt(r, o) != 0 {
      FindOne(EntryAt(r, o), name);
      if r[o + HEADER..o + HEADER + NameLenAt(r, o)] == name {
        assert NameLenAt(r, o) == |name|;
      }
    }
  }

  /** The inner loop of lookup and dirunlink: the first live record with that name. */
  method FindRecord(r: Sector, name: Name) returns (at: Option<nat>)
    requires Tiles(r, 0)
    ensures at.None? ==> Find(Entries(r, 0), name).None?
    ensures at.Some? ==> && HeaderOk(r, at.value) && LeadsTo(r, 0, at.value) && Matches(r, at.value, name)
                         && Find(Entries(r, 0), name) == Some(InoAt(r, at.value))
  {
    hide ReadLe16, ReadLe32, Entries, EntriesTo, LeadsTo, Tiles, Find, Live;
    var o := 0;
    Start(r);
    while o + HEADER <= REGION
      invariant 0 <= o <= REGION && Before(r, o) && Find(EntriesTo(r, 0, o), name).None?
      decreases REGION - o
    {
      Ahead(r, o);
      LiveFind(r, o, name);
      FindConcat(EntriesTo(r, 0, o), Live(r, o), name);
      if InoAt(r, o) != 0 && NameLenAt(r, o) == |name| && r[o + HEADER..o + HEADER + |name|] == name {
        Here(r, o, name);
        return Some(o);
      }
      o := o + LenAt(r, o);
    }
    AtEnd(r, o);
    at := None;
  }

  /** o is a record boundary of the tiled region r. */
  predicate Before(r: Sector, o: nat) {
    o <= REGION && LeadsTo(r, 0, o) && Tiles(r, o)
  }

  lemma Start(r: Sector)
    requires Tiles(r, 0)
    ensures Before(r, 0) && EntriesTo(r, 0, 0) == [] && forall n: Name :: Find([], n) == None
  {
  }

  lemma Ahead(r: Sector, o: nat)
    requires Before(r, o) && o + HEADER <= REGION
    ensures HeaderOk(r, o) && Before(r, o + LenAt(r, o))
    ensures LeadsTo(r, 0, o) && LeadsTo(r, 0, o + LenAt(r, o))
    ensures EntriesTo(r, 0, o + LenAt(r, o)) == EntriesTo(r, 0, o) + Live(r, o)
  {
    hide ReadLe16, Live;
    LeadsOn(r, 0, o);
  }

  lemma Here(r: Sector, o: nat, name: Name)
    requires Before(r, o) && o + HEADER <= REGION && Tiles(r, 0) && HeaderOk(r, o) && LeadsTo(r, 0, o)
    requires Find(EntriesTo(r, 0, o), name).None? && Matches(r, o, name)
    ensures Find(Entries(r, 0), name) == Some(InoAt(r, o))
  {
    hide ReadLe16, ReadLe32, Live, Find, EntriesTo, LeadsTo, Tiles, Entries;
    SplitAt(r, 0, o);
    OneRecord(r, o);
    LiveFind(r, o, name);
    FindConcat(EntriesTo(r, 0, o), Entries(r, o), name);
    FindConcat(Live(r, o), Entries(r, o + LenAt(r, o)), name);
  }

  lemma AtEnd(r: Sector, o: nat)
    requires Before(r, o) && o + HEADER > REGION && Tiles(r, 0)
    ensures o == REGION && LeadsTo(r, 0, o) && Entries(r, 0) == EntriesTo(r, 0, o)
  {
    hide ReadLe16, Live;
    SplitAt(r, 0, o);
  }

  // -------------------------------------------------------- finding room

  /** The first record from o on with space for needed bytes. */
  function RoomIn(r: Sector, o: nat, needed: nat): (at: Option<nat>)
    requires Tiles(r, o)
    ensures at.Some? ==> HeaderOk(r, at.value) && Room(r, at.value, needed)
    decreases REGION - o
  {
    if o == REGION then None else if Room(r, o, needed) then Some(o) else RoomIn(r, o + LenAt(r, o), needed)
  }

  /** The first region from i on that has such a record. */
  function RoomFrom(d: seq<Sector>, i: nat, needed: nat): (at: nat)
    requires AllTile(d) && i <= |d|
    ensures i <= at <= |d| && (at < |d| ==> RoomIn(d[at], 0, needed).Some?)
    ensures forall j :: i <= j < at ==> RoomIn(d[j], 0, needed).None?
    decreases |d| - i
  {
    if i == |d| || RoomIn(d[i], 0, needed).Some? then i else RoomFrom(d, i + 1, needed)
  }

  /** The space dirlink leaves over in the record it splits; in a fresh region if none has room. */
  function ChosenSlack(d: seq<Sector>, needed: nat): (s: int)
    requires AllTile(d)
  {
    var i := RoomFrom(d, 0, needed);
    if i < |d| then Slack(d[i], RoomIn(d[i], 0, needed).value, needed) else REGION - needed
  }

  /** dirlink's inner loop. */
  method FindRoom(r: Sector, needed: nat) returns (at: Option<nat>)
    requires Tiles(r, 0)
    ensures at == RoomIn(r, 0, needed) && (at.Some? ==> LeadsTo(r, 0, at.value))
  {
    hide ReadLe16, ReadLe32, LeadsTo, Tiles, EntriesTo, Live;
    var o := 0;
    Start(r);
    while o + HEADER <= REGION
      invariant 0 <= o <= REGION && Before(r, o) && RoomIn(r, o, needed) == RoomIn(r, 0, needed)
      decreases REGION - o
    {
      Ahead(r, o);
      if InoAt(r, o) == 0 {
        if LenAt(r, o) >= needed {
          return Some(o);
        }
      } else if RecordSize(NameLenAt(r, o)) <= LenAt(r, o) && LenAt(r, o) - RecordSize(NameLenAt(r, o)) >= needed {
        return Some(o);
      }
      o := o + LenAt(r, o);
    }
    AtEnd(r, o);
    at := None;
  }

  /** A fresh region: one free record. */
  function Fresh(): (r: Sector) {
    WriteLe16(Zeros(REGION), 4, REGION)
  }

  lemma FreshRegion(needed: nat)
    ensures Tiles(Fresh(), 0) && Entries(Fresh(), 0) == []
    ensures needed <= REGION ==> RoomIn(Fresh(), 0, needed) == Some(0) && Slack(Fresh(), 0, needed) == REGION - needed
  {
    hide ReadLe16;
    assert InoAt(Fresh(), 0) == 0 && LenAt(Fresh(), 0) == REGION && NameLenAt(Fresh(), 0) == 0;
    assert Tiles(Fresh(), REGION);
  }

  function FreshRegions(n: nat): (d: seq<Sector>)
    ensures |d| == n && forall i :: 0 <= i < n ==> d[i] == Fresh()
  {
    seq(n, _ => Fresh())
  }

  lemma {:induction false} FreshEntries(d: seq<Sector>, n: nat)
    requires AllTile(d)
    ensures AllTile(d + FreshRegions(n)) && AllEntries(d + FreshRegions(n)) == AllEntries(d)
    decreases |d|, n
  {
    hide Tiles, Entries, Fresh;
    FreshRegion(0);
    var f := FreshRegions(n);
    if d != [] {
      FreshEntries(d[1..], n);
      assert (d + f)[1..] == d[1..] + f;
    } else if n > 0 {
      FreshEntries([], n - 1);
      assert ([] + f)[1..] == [] + FreshRegions(n - 1);
      assert d + f == [] + f;
    } else {
      assert d + f == [];
    }
  }

  lemma {:induction false} GrownRoom(d: seq<Sector>, n: nat, i: nat, needed: nat)
    requires AllTile(d) && AllTile(d + FreshRegions(n)) && n > 0 && needed <= REGION && i <= |d|
    requires RoomFrom(d, i, needed) == |d|
    ensures RoomFrom(d + FreshRegions(n), i, needed) == |d|
    decreases |d| - i
  {
    hide Tiles, Fresh, RoomIn;
    FreshRegion(needed);
    var e := d + FreshRegions(n);
    if i < |d| {
      assert e[i] == d[i];
      GrownRoom(d, n, i + 1, needed);
    } else {
      assert e[i] == Fresh();
    }
  }

  // ---------------------------------------------------------- directories

  lemma AllPrefix(d: seq<Sector>, i: nat, name: Name)
    requires AllTile(d) && i < |d| && Find(AllEntries(d[..i]), name).None?
    ensures Find(AllEntries(d[..i + 1]), name) == Find(Entries(d[i], 0), name)
    ensures Find(Entries(d[i], 0), name).Some? ==> Find(AllEntries(d), name) == Find(Entries(d[i], 0), name)
  {
    hide Entries, Tiles, Find, AllEntries;
    var p := d[..i + 1];
    AllSplit(p, i);
    assert p[..i] == d[..i] && p[i + 1..] == [] && AllEntries([]) == [] by { NoEntries(); }
    AllSplit(d, i);
    FindConcat(AllEntries(d[..i]), Entries(d[i], 0) + AllEntries(p[i + 1..]), name);
    FindConcat(AllEntries(d[..i]), Entries(d[i], 0) + AllEntries(d[i + 1..]), name);
    FindConcat(Entries(d[i], 0), AllEntries(d[i + 1..]), name);
    assert Entries(d[i], 0) + AllEntries(p[i + 1..]) == Entries(d[i], 0);
  }

  lemma NoEntries()
    ensures AllEntries([]) == [] && forall n: Name :: Find([], n).None?
  {
  }

  datatype Outcome = Linked | Refused | Overrun

  /** After adding e, the directory maps e.name to e.ino and every other name as before. */
  ghost predicate Added(xs: seq<Entry>, ys: seq<Entry>, e: Entry) {
    forall n: Name :: Find(ys, n) == if n == e.name then Some(e.ino) else Find(xs, n)
  }

  ghost predicate Removed(xs: seq<Entry>, ys: seq<Entry>, name: Name) {
    forall n: Name :: Find(ys, n) == if n == name then None else Find(xs, n)
  }

  const DOT: Name := [0x2e]
  const DOTDOT: Name := [0x2e, 0x2e]

  /** The first region of ufs2_make_directory: the directory itself, and its parent in the rest. */
  function Dotted(ino: Word, parent: Word): Sector {
    var r := WriteLe16(WriteLe32(Zeros(REGION), 0, ino), 4, RecordSize(1));
    var s := r[6 := KINDDIR][7 := 1][8 := 0x2e];
    var t := WriteLe16(WriteLe32(s, 12, parent), 16, REGION - RecordSize(1));
    t[18 := KINDDIR][19 := 2][20 := 0x2e][21 := 0x2e]
  }

  lemma DottedRecords(ino: Word, parent: Word)
    ensures var r := Dotted(ino, parent);
            && HeaderOk(r, 0) && LenAt(r, 0) == 12 && EntryAt(r, 0) == Entry(DOT, ino, KINDDIR)
            && HeaderOk(r, 12) && LenAt(r, 12) == 500 && EntryAt(r, 12) == Entry(DOTDOT, parent, KINDDIR)
  {
    var r := Dotted(ino, parent);
    assert InoAt(r, 0) == ino && LenAt(r, 0) == 12;
    assert InoAt(r, 12) == parent && LenAt(r, 12) == 500;
    assert r[8..9] == DOT;
    assert r[20..22] == DOTDOT;
  }

  lemma DottedRegion(ino: Word, parent: Word)
    requires ino != 0 && parent != 0
    ensures Tiles(Dotted(ino, parent), 0)
    ensures Entries(Dotted(ino, parent), 0) == [Entry(DOT, ino, KINDDIR), Entry(DOTDOT, parent, KINDDIR)]
  {
    hide Dotted, ReadLe16, ReadLe32;
    var r := Dotted(ino, parent);
    DottedRecords(ino, parent);
    assert Tiles(r, REGION) && Entries(r, REGION) == [];
    assert Tiles(r, 12) && Entries(r, 12) == [EntryAt(r, 12)];
  }

  /** The regions of a new directory's block. */
  function NewDirectory(ino: Word, parent: Word, rpb: nat): (d: seq<Sector>)
    requires rpb > 0
    ensures |d| == rpb
  {
    [Dotted(ino, parent)] + FreshRegions(rpb - 1)
  }

  lemma NewEntries(ino: Word, parent: Word, rpb: nat)
    requires ino != 0 && parent != 0 && rpb > 0
    ensures var d := NewDirectory(ino, parent, rpb);
            AllTile(d) && AllEntries(d) == [Entry(DOT, ino, KINDDIR), Entry(DOTDOT, parent, KINDDIR)]
  {
    hide Dotted, Tiles, Entries, FreshRegions;
    var one := [Dotted(ino, parent)];
    DottedRegion(ino, parent);
    FreshEntries(one, rpb - 1);
    assert one[1..] == [] && AllEntries([]) == [];
    assert AllEntries(one) == Entries(one[0], 0) + [];
  }

  class Directory {
    var regions: seq<Sector>
    const rpb: nat  // regions per file-system block

    /** ufs2_make_directory's block: "." and "..", and room. */
    constructor (ino: Word, parent: Word, rpb: nat)
      requires ino != 0 && parent != 0 && rpb > 0
      ensures Valid() && this.rpb == rpb && |regions| == rpb
      ensures AllEntries(regions) == [Entry(DOT, ino, KINDDIR), Entry(DOTDOT, parent, KINDDIR)]
    {
      this.rpb := rpb;
      regions := NewDirectory(ino, parent, rpb);
      new;
      hide NewDirectory, Tiles, AllEntries;
      NewEntries(ino, parent, rpb);
    }

    ghost predicate Valid()
      reads this
    {
      AllTile(regions) && NamesDiffer(AllEntries(regions)) && rpb > 0
    }

    /** ufs2_lookup */
    method Lookup(name: Name) returns (r: Option<nat>)
      requires Valid()
      ensures r == if NameOk(name) then Find(AllEntries(regions), name) else None
    {
      hide Tiles, Entries, Find, AllEntries, NamesDiffer;
      if !NameOk(name) {
        return None;
      }
      NoEntries();
      assert regions[..0] == [];
      for i := 0 to |regions|
        invariant Find(AllEntries(regions[..i]), name).None?
      {
        AllPrefix(regions, i, name);
        var at := FindRecord(regions[i], name);
        if at.Some? {
          return Some(InoAt(regions[i], at.value));
        }
      }
      assert regions[..|regions|] == regions;
      r := None;
    }

    /** ufs2_dirunlink: exactly that entry goes. */
    method Dirunlink(name: Name) returns (r: Option<nat>)
      requires Valid()
      modifies this`regions
      ensures Valid()
      ensures r == if NameOk(name) then Find(old(AllEntries(regions)), name) else None
      ensures r.None? ==> regions == old(regions)
      ensures r.Some? ==> Removed(old(AllEntries(regions)), AllEntries(regions), name)
    {
      hide Tiles, Entries, Find, AllEntries, NamesDiffer, Removed;
      if !NameOk(name) {
        return None;
      }
      NoEntries();
      assert regions[..0] == [];
      for i := 0 to |regions|
        invariant regions == old(regions) && Find(AllEntries(regions[..i]), name).None?
      {
        AllPrefix(regions, i, name);
        var at := FindRecord(regions[i], name);
        if at.Some? {
          r := Some(InoAt(regions[i], at.value));
          UnlinkDone(regions, i, at.value, name);
          regions := regions[i := WriteLe32(regions[i], at.value, 0)];
          return;
        }
      }
      assert regions[..|regions|] == regions;
      r := None;
    }

    /** dirlink's argument checks. */
    ghost predicate Acceptable(name: Name, ino: nat, kind: Byte)
      requires AllTile(regions)
      reads this
    {
      NameOk(name) && ino >= ROOTINO && (kind == KINDREG || kind == KINDDIR) && Find(AllEntries(regions), name).None?
    }

    /** The directory may get another block. */
    predicate Growable()
      requires rpb > 0
      reads this
    {
      |regions| % rpb == 0 && |regions| / rpb < DIRECTBLOCKS
    }

    /**
     ufs2_dirlink: the entry goes into the first record with room, after at most one
     new block. Refused is -1. The directory is again well-formed, with exactly that
     entry added, if and only if the space left over is not 4 bytes; Overrun is the
     write past the end of the region's buffer that can then occur.
     */
    method Dirlink(name: Name, ino: nat, kind: Byte, allocOk: bool) returns (r: Outcome)
      requires Valid() && ino < 0x1_0000_0000
      modifies this`regions
      decreases if RoomFrom(regions, 0, RecordSize(|name|)) < |regions| then 0 else 1
      ensures r.Refused? <==>
        !old(Acceptable(name, ino, kind))
            || (old(RoomFrom(regions, 0, RecordSize(|name|)) == |regions|) && !(old(Growable()) && allocOk))
      ensures r.Refused? || r.Overrun? ==> regions == old(regions)
      ensures r.Overrun? ==> old(ChosenSlack(regions, RecordSize(|name|))) == 4
      ensures r.Linked? ==> (Valid() <==> old(ChosenSlack(regions, RecordSize(|name|))) != 4)
      ensures r.Linked? && Valid() ==> Added(old(AllEntries(regions)), AllEntries(regions), Entry(name, ino, kind))
    {
      hide Tiles, Entries, Find, AllEntries, NamesDiffer, Added, RoomIn;
      if ino < ROOTINO || !NameOk(name) || (kind != KINDREG && kind != KINDDIR) {
        return Refused;
      }
      var needed := RecordSize(|name|);
      var existing := Lookup(name);
      if existing.Some? {
        return Refused;
      }
      for i := 0 to |regions|
        invariant regions == old(regions) && RoomFrom(regions, i, needed) == RoomFrom(regions, 0, needed)
      {
        var at := FindRoom(regions[i], needed);
        if at.Some? {
          r := Link(i, at.value, Entry(name, ino, kind));
          return;
        }
      }
      if !Growable() || !allocOk {
        return Refused;
      }
      FreshEntries(regions, rpb);
      GrownRoom(regions, rpb, 0, needed);
      FreshRegion(needed);
      regions := regions + FreshRegions(rpb);
      r := Dirlink(name, ino, kind, allocOk);
    }

    /** Splitting the record at o of region i for e. */
    method Link(i: nat, o: nat, e: Entry) returns (r: Outcome)
      requires Valid() && i < |regions| && HeaderOk(regions[i], o) && LeadsTo(regions[i], 0, o)
      requires EntryOk(e) && Room(regions[i], o, RecordSize(|e.name|)) && Find(AllEntries(regions), e.name).None?
      modifies this`regions
      ensures !r.Refused?
      ensures r.Overrun? ==> regions == old(regions) && Slack(regions[i], o, RecordSize(|e.name|)) == 4
      ensures r.Linked? ==> (Valid() <==> Slack(old(regions[i]), o, RecordSize(|e.name|)) != 4)
      ensures r.Linked? && Valid() ==> Added(old(AllEntries(regions)), AllEntries(regions), e)
    {
      hide Tiles, Entries, Find, AllEntries, NamesDiffer, Added, Carved, Room, Slack, LeadsTo, ReadLe16, ReadLe32;
      SplitTiles(regions[i], o, e);
      if Slack(regions[i], o, RecordSize(|e.name|)) != 4 {
        LinkDone(regions, i, o, e);
      }
      var block := Carved(regions[i], o, e);
      if block.None? {
        return Overrun;
      }
      regions := regions[i := block.value];
      assert regions[i] == block.value;
      r := Linked;
    }
  }

  lemma UnlinkDone(d: seq<Sector>, i: nat, o: nat, name: Name)
    requires AllTile(d) && NamesDiffer(AllEntries(d)) && i < |d| && HeaderOk(d[i], o) && LeadsTo(d[i], 0, o)
    requires Matches(d[i], o, name)
    ensures var d' := d[i := WriteLe32(d[i], o, 0)];
            AllTile(d') && NamesDiffer(AllEntries(d')) && Removed(AllEntries(d), AllEntries(d'), name)
  {
    hide Tiles, Entries, Find, AllEntries, LeadsTo, EntriesTo, ReadLe16, ReadLe32, InsertedAt, NamesDiffer;
    var r', e, k := WriteLe32(d[i], o, 0), EntryAt(d[i], o), |EntriesTo(d[i], 0, o)|;
    Cleared(d[i], o);
    RegionChanged(d, i, r', k, e);
    LiveFind(d[i], o, name);
    var d' := d[i := r'];
    forall n: Name
      ensures Find(AllEntries(d'), n) == if n == name then None else Find(AllEntries(d), n)
    {
      RemovedFind(AllEntries(d), AllEntries(d'), |AllEntries(d[..i])| + k, e, n);
    }
    RemovedFind(AllEntries(d), AllEntries(d'), |AllEntries(d[..i])| + k, e, name);
  }

  /** Splitting the record at o of region i for e, with space other than 4 bytes left over. */
  lemma LinkDone(d: seq<Sector>, i: nat, o: nat, e: Entry)
    requires AllTile(d) && NamesDiffer(AllEntries(d)) && i < |d| && HeaderOk(d[i], o) && LeadsTo(d[i], 0, o)
    requires EntryOk(e) && Room(d[i], o, RecordSize(|e.name|)) && Find(AllEntries(d), e.name).None?
    requires Slack(d[i], o, RecordSize(|e.name|)) != 4
    ensures Carved(d[i], o, e).Some?
    ensures var d' := d[i := Carved(d[i], o, e).value];
            AllTile(d') && NamesDiffer(AllEntries(d')) && Added(AllEntries(d), AllEntries(d'), e)
  {
    hide Tiles, Entries, Find, AllEntries, LeadsTo, EntriesTo;
    hide ReadLe16, ReadLe32, InsertedAt, NamesDiffer, Carved, Live;
    SplitTiles(d[i], o, e);
    var r', k := Carved(d[i], o, e).value, |EntriesTo(d[i], 0, o) + Live(d[i], o)|;
    RegionChanged(d, i, r', k, e);
    var d' := d[i := r'];
    forall n: Name
      ensures Find(AllEntries(d'), n) == if n == e.name then Some(e.ino) else Find(AllEntries(d), n)
    {
      InsertedFind(AllEntries(d), AllEntries(d'), |AllEntries(d[..i])| + k, e, n);
    }
    InsertedNames(AllEntries(d), AllEntries(d'), |AllEntries(d[..i])| + k, e);
  }

  /**
   The failing case arises from the code's own operations: link a name in a fresh
   region, unlink it, and link a name whose record is 4 bytes shorter.
   */
  lemma RelinkBreaks(e: Entry, f: Entry)
    requires EntryOk(e) && EntryOk(f) && RecordSize(|e.name|) == RecordSize(|f.name|) + 4
    ensures HeaderOk(Fresh(), 0) && Room(Fresh(), 0, RecordSize(|e.name|)) && Carved(Fresh(), 0, e).Some?
    ensures var r: Sector := WriteLe32(Carved(Fresh(), 0, e).value, 0, 0);
            && Tiles(r, 0) && Entries(r, 0) == [] && RoomIn(r, 0, RecordSize(|f.name|)) == Some(0)
            && !(Carved(r, 0, f).Some? && Tiles(Carved(r, 0, f).value, 0))
  {
    hide ReadLe16, ReadLe32, Carved, Tiles, Entries, EntriesTo, Live, Fresh, InsertedAt;
    FreshRegion(RecordSize(|e.name|));
    SplitTiles(Fresh(), 0, e);
    var r1 := Carved(Fresh(), 0, e).value;
    CarvedNew(Fresh(), 0, e);
    NewIsLive(r1, 0, e);
    Start(r1);
    Cleared(r1, 0);
    var r: Sector := WriteLe32(r1, 0, 0);
    LenOnly(r1, r, 0);
    Emptied(Entries(Fresh(), 0), Entries(r1, 0), Entries(r, 0), |EntriesTo(Fresh(), 0, 0) + Live(Fresh(), 0)|,
        |EntriesTo(r1, 0, 0)|, e, EntryAt(r1, 0));
    SplitTiles(r, 0, f);
  }

  lemma NewIsLive(r: Sector, o: nat, e: Entry)
    requires HeaderOk(r, o) && Live(r, o) == [e]
    ensures InoAt(r, o) != 0
  {
  }

  lemma Emptied(xs: seq<Entry>, ys: seq<Entry>, zs: seq<Entry>, k: nat, l: nat, e: Entry, f: Entry)
    requires xs == [] && InsertedAt(xs, ys, k, e) && InsertedAt(zs, ys, l, f)
    ensures zs == []
  {
    assert |ys| == 1;
  }
}
