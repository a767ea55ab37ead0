/**
 Splitting a directory record to make room for a new one (the inner body of
 ufs2_dirlink, kern/ufs2.c). The region stays a tiling exactly when the space left
 over is not 4 bytes, too little for a record header.
 */
module DirSplit {
  import opened Bytes
  import opened DirRecords
  import opened Basics

  predicate NameOk(name: Name) {
    1 <= |name| <= MAXNAME
  }

  predicate EntryOk(e: Entry) {
    NameOk(e.name) && 0 < e.ino < 0x1_0000_0000
  }

  /** Where in the record at o the new one starts. */
  function NewOffset(r: Sector, o: nat): (n: nat)
    requires HeaderOk(r, o)
    ensures n >= o
  {
    if InoAt(r, o) == 0 then o else o + RecordSize(NameLenAt(r, o))
  }

  /** The record at o has space for needed more bytes. */
  predicate Room(r: Sector, o: nat, needed: nat)
    requires HeaderOk(r, o)
  {
    NewOffset(r, o) + needed <= o + LenAt(r, o)
  }

  /** What is left of the record at o after the new one. */
  function Slack(r: Sector, o: nat, needed: nat): (s: nat)
    requires HeaderOk(r, o) && Room(r, o, needed)
  {
    o + LenAt(r, o) - NewOffset(r, o) - needed
  }

  // ------------------------------------------------------- the three edits

  /** The record at o cut down to len bytes. */
  function Shortened(r: Sector, o: nat, len: nat): (r': Sector)
    requires o + HEADER <= REGION && len < 0x1_0000
    ensures LenAt(r', o) == len
    ensures forall i :: 0 <= i < REGION && !(o + 4 <= i < o + 6) ==> r'[i] == r[i]
  {
    WriteLe16(r, o + 4, len)
  }

  /** A free record of n bytes at f: its bytes zeroed, its length written. */
  function Freed(r: Sector, f: nat, n: nat): (r': Sector)
    requires f + n <= REGION && f + 6 <= REGION
    ensures f + HEADER <= REGION ==> LenAt(r', f) == n
    ensures f + HEADER <= REGION && HEADER <= n ==> InoAt(r', f) == 0 && NameLenAt(r', f) == 0
    ensures forall i :: 0 <= i < REGION && i < f ==> r'[i] == r[i]
    ensures forall i :: 0 <= i < REGION && f + n <= i && f + 6 <= i ==> r'[i] == r[i]
  {
    WriteLe16(Splice(r, f, Zeros(n)), f + 4, n)
  }

  /** The new record, len bytes long, written over the needed bytes at p. */
  function Stamped(r: Sector, p: nat, len: nat, e: Entry): (r': Sector)
    requires EntryOk(e) && p + RecordSize(|e.name|) <= REGION && len < 0x1_0000
    ensures InoAt(r', p) == e.ino && LenAt(r', p) == len && NameLenAt(r', p) == |e.name| && r'[p + 6] == e.kind
    ensures forall i :: 0 <= i < |e.name| ==> r'[p + HEADER + i] == e.name[i]
    ensures forall i :: 0 <= i < REGION && !(p <= i < p + RecordSize(|e.name|)) ==> r'[i] == r[i]
  {
    var a := Splice(r, p, Zeros(RecordSize(|e.name|)));
    var b := WriteLe32(a, p, e.ino);
    var c := WriteLe16(b, p + 4, len);
    var d := c[p + 6 := e.kind][p + 7 := |e.name|];
    Splice(d, p + HEADER, e.name)
  }

  /** All of them, in the order dirlink makes them. None is a write past the end of the buffer. */
  function Carved(r: Sector, o: nat, e: Entry): (r': Option<Sector>)
    requires EntryOk(e) && HeaderOk(r, o) && Room(r, o, RecordSize(|e.name|))
  {
    var needed, p := RecordSize(|e.name|), NewOffset(r, o);
    var slack := Slack(r, o, needed);
    var a := if InoAt(r, o) == 0 then r else Shortened(r, o, RecordSize(NameLenAt(r, o)));
    if slack == 0 then Some(Stamped(a, p, needed, e))
    else if p + needed + 6 > REGION then None
    else Some(Stamped(Freed(a, p + needed, slack), p, needed, e))
  }

  // ---------------------------------------------- what the region is then

  /** The old record, cut to its own size, still holds its entry. */
  lemma OldKept(r: Sector, r': Sector, o: nat)
    requires HeaderOk(r, o) && RecordSize(NameLenAt(r, o)) <= LenAt(r, o) && LenAt(r', o) == RecordSize(NameLenAt(r, o))
    requires forall i :: o <= i < o + RecordSize(NameLenAt(r, o)) && !(o + 4 <= i < o + 6) ==> r'[i] == r[i]
    ensures HeaderOk(r', o) && Live(r', o) == Live(r, o)
  {
    hide ReadLe16;
    var n := NameLenAt(r, o);
    assert r'[o + HEADER..o + HEADER + n] == r[o + HEADER..o + HEADER + n];
  }

  /** The new record holds the new entry. */
  lemma NewThere(r': Sector, p: nat, len: nat, e: Entry)
    requires EntryOk(e) && RecordSize(|e.name|) <= len && len % 4 == 0 && p + len <= REGION
    requires InoAt(r', p) == e.ino && LenAt(r', p) == len && NameLenAt(r', p) == |e.name| && r'[p + 6] == e.kind
    requires forall i :: 0 <= i < |e.name| ==> r'[p + HEADER + i] == e.name[i]
    ensures HeaderOk(r', p) && Live(r', p) == [e]
  {
    hide ReadLe16;
    assert r'[p + HEADER..p + HEADER + |e.name|] == e.name;
  }

  /** The record as it is on the disk: inode number, record length, kind, name length, the name, and zeros. */
  lemma RecordBytes(r: Sector, p: nat, len: nat, e: Entry)
    requires EntryOk(e) && p + RecordSize(|e.name|) <= REGION && len < 0x1_0000
    ensures Stamped(r, p, len, e)[p..p + RecordSize(|e.name|)] ==
            Le32(e.ino) + Le16(len) + [e.kind, |e.name|] + e.name + Zeros(RecordSize(|e.name|) - HEADER - |e.name|)
  {
    hide RecordSize, Le32, Le16, ReadLe32, ReadLe16;
    var s := Stamped(r, p, len, e);
    StampedAt(r, p, len, e);
    assert s[p..p + 4] == Le32(e.ino);
    assert s[p + 4..p + 6] == Le16(len);
    assert s[p + HEADER..p + HEADER + |e.name|] == e.name;
    var pad := RecordSize(|e.name|) - HEADER - |e.name|;
    assert s[p + HEADER + |e.name|..p + RecordSize(|e.name|)] == Zeros(pad);
    assert s[p..p + RecordSize(|e.name|)] == s[p..p + 4] + s[p + 4..p + 6] + [s[p + 6], s[p + 7]]
        + s[p + HEADER..p + HEADER + |e.name|] + s[p + HEADER + |e.name|..p + RecordSize(|e.name|)];
  }

  lemma StampedAt(r: Sector, p: nat, len: nat, e: Entry)
    requires EntryOk(e) && p + RecordSize(|e.name|) <= REGION && len < 0x1_0000
    ensures var s := Stamped(r, p, len, e);
            && (forall i :: 0 <= i < 4 ==> s[p + i] == Le32(e.ino)[i])
            && (forall i :: 0 <= i < 2 ==> s[p + 4 + i] == Le16(len)[i])
            && forall i :: p + HEADER + |e.name| <= i < p + RecordSize(|e.name|) ==> s[i] == 0
  {
    hide RecordSize, Le32, Le16, ReadLe32, ReadLe16;
  }

  lemma StampedRecord(r: Sector, p: nat, len: nat, e: Entry)
    requires EntryOk(e) && RecordSize(|e.name|) <= len && len % 4 == 0 && p + len <= REGION
    ensures HeaderOk(Stamped(r, p, len, e), p) && Live(Stamped(r, p, len, e), p) == [e]
    ensures LenAt(Stamped(r, p, len, e), p) == len
  {
    hide Stamped;
    NewThere(Stamped(r, p, len, e), p, len, e);
  }

  /** What Carved leaves outside the record at o, and of the record's own start. */
  lemma CarvedFrame(r: Sector, o: nat, e: Entry)
    requires EntryOk(e) && HeaderOk(r, o) && Room(r, o, RecordSize(|e.name|)) && Carved(r, o, e).Some?
    requires Slack(r, o, RecordSize(|e.name|)) != 4
    ensures var r' := Carved(r, o, e).value;
            SameBytes(r, r', 0, o) && SameBytes(r, r', o + LenAt(r, o), REGION)
  {
    hide Stamped, Shortened, Freed, ReadLe16;
    SlackMultiple(r, o, RecordSize(|e.name|));
  }

  lemma SlackMultiple(r: Sector, o: nat, needed: nat)
    requires HeaderOk(r, o) && Room(r, o, needed) && needed % 4 == 0
    ensures Slack(r, o, needed) % 4 == 0
  {
  }

  /** A live record's first part after the split. */
  lemma CarvedOld(r: Sector, o: nat, e: Entry)
    requires EntryOk(e) && HeaderOk(r, o) && Room(r, o, RecordSize(|e.name|)) && Carved(r, o, e).Some?
    requires InoAt(r, o) != 0
    ensures var r' := Carved(r, o, e).value;
            && HeaderOk(r', o) && o + LenAt(r', o) == NewOffset(r, o) && Live(r', o) == Live(r, o)
  {
    hide Stamped, Shortened, Freed, ReadLe16;
    var r', n := Carved(r, o, e).value, RecordSize(NameLenAt(r, o));
    var a := Shortened(r, o, n);
    assert forall i :: o <= i < o + n ==> r'[i] == a[i];
    LenSame(a, r', o);
    OldKept(r, r', o);
  }

  lemma LenSame(a: Sector, b: Sector, o: nat)
    requires o + HEADER <= REGION && forall i :: o <= i < o + HEADER ==> b[i] == a[i]
    ensures LenAt(b, o) == LenAt(a, o) && InoAt(b, o) == InoAt(a, o) && NameLenAt(b, o) == NameLenAt(a, o)
  {
  }

  lemma CarvedNew(r: Sector, o: nat, e: Entry)
    requires EntryOk(e) && HeaderOk(r, o) && Room(r, o, RecordSize(|e.name|)) && Carved(r, o, e).Some?
    ensures var r', p := Carved(r, o, e).value, NewOffset(r, o);
            HeaderOk(r', p) && LenAt(r', p) == RecordSize(|e.name|) && Live(r', p) == [e]
  {
    hide Stamped, Shortened, Freed, ReadLe16, Live;
    var needed, p := RecordSize(|e.name|), NewOffset(r, o);
    var a := if InoAt(r, o) == 0 then r else Shortened(r, o, RecordSize(NameLenAt(r, o)));
    var slack := Slack(r, o, needed);
    StampedRecord(if slack == 0 then a else Freed(a, p + needed, slack), p, needed, e);
  }

  /** The rest: one free record, or, with 4 bytes left, no record at all. */
  lemma CarvedFree(r: Sector, o: nat, e: Entry)
    requires EntryOk(e) && HeaderOk(r, o) && Room(r, o, RecordSize(|e.name|)) && Carved(r, o, e).Some?
    requires Slack(r, o, RecordSize(|e.name|)) != 0
    ensures FreeAt(Carved(r, o, e).value, NewOffset(r, o) + RecordSize(|e.name|), Slack(r, o, RecordSize(|e.name|)))
  {
    hide Stamped, Shortened, Freed, ReadLe16;
    var needed, p := RecordSize(|e.name|), NewOffset(r, o);
    var f, slack := p + needed, Slack(r, o, needed);
    SlackMultiple(r, o, needed);
    var a := if InoAt(r, o) == 0 then r else Shortened(r, o, RecordSize(NameLenAt(r, o)));
    if f + HEADER <= REGION {
      LenSame(Freed(a, f, slack), Carved(r, o, e).value, f);
    }
  }

  predicate FreeAt(r: Sector, f: nat, slack: nat) {
    if slack == 4 then !HeaderOk(r, f) && f < REGION
    else HeaderOk(r, f) && LenAt(r, f) == slack && InoAt(r, f) == 0
  }

  /** ys is xs with e put in at place k. */
  predicate InsertedAt(xs: seq<Entry>, ys: seq<Entry>, k: nat, e: Entry) {
    k <= |xs| && ys == xs[..k] + [e] + xs[k..]
  }

  /** The records from a to o hold exactly the entries xs. */
  predicate Holds(r: Sector, a: nat, o: nat, xs: seq<Entry>) {
    LeadsTo(r, a, o) && EntriesTo(r, a, o) == xs
  }

  /** With no 4-byte slack, the records at the old place are the old one, the new one and a free one. */
  lemma CarvedLeads(r: Sector, o: nat, e: Entry)
    requires EntryOk(e) && HeaderOk(r, o) && Room(r, o, RecordSize(|e.name|)) && Carved(r, o, e).Some?
    requires Slack(r, o, RecordSize(|e.name|)) != 4
    ensures Holds(Carved(r, o, e).value, o, o + LenAt(r, o), Live(r, o) + [e])
  {
    hide Live, ReadLe16, Carved, Holds;
    var r', p, needed, end := Carved(r, o, e).value, NewOffset(r, o), RecordSize(|e.name|), o + LenAt(r, o);
    CarvedNew(r, o, e);
    HoldsNothing(r', end);
    if Slack(r, o, needed) != 0 {
      CarvedFree(r, o, e);
      NotLive(r', p + needed);
      HoldsMore(r', p + needed, end, [], []);
    }
    HoldsMore(r', p, end, [], [e]);
    if InoAt(r, o) != 0 {
      CarvedOld(r, o, e);
      HoldsMore(r', o, end, [e], Live(r, o) + [e]);
    } else {
      NotLive(r, o);
      assert Live(r, o) + [e] == [e];
    }
  }

  lemma HoldsNothing(r: Sector, o: nat)
    ensures Holds(r, o, o, [])
  {
  }

  lemma HoldsMore(r: Sector, a: nat, o: nat, xs: seq<Entry>, ys: seq<Entry>)
    requires HeaderOk(r, a) && Holds(r, a + LenAt(r, a), o, xs) && ys == Live(r, a) + xs
    ensures Holds(r, a, o, ys)
  {
    hide Live, ReadLe16;
    LeadsForward(r, a + LenAt(r, a), o);
  }

  lemma NotLive(r: Sector, o: nat)
    requires HeaderOk(r, o) && InoAt(r, o) == 0
    ensures Live(r, o) == []
  {
  }

  /** With 4 bytes left over the region is no tiling any more. */
  lemma CarvedBroken(r: Sector, o: nat, e: Entry)
    requires LeadsTo(r, 0, o) && EntryOk(e) && HeaderOk(r, o) && Room(r, o, RecordSize(|e.name|))
    requires Carved(r, o, e).Some?
    requires Slack(r, o, RecordSize(|e.name|)) == 4
    ensures !Tiles(Carved(r, o, e).value, 0)
  {
    hide Live, ReadLe16, Carved, LeadsTo, EntriesTo, Tiles, SameBytes;
    var r', p, needed := Carved(r, o, e).value, NewOffset(r, o), RecordSize(|e.name|);
    CarvedNew(r, o, e);
    CarvedFree(r, o, e);
    CarvedBefore(r, o, e);
    LeadsForward(r, 0, o);
    SamePrefix(r, r', 0, o);
    if InoAt(r, o) != 0 {
      CarvedOld(r, o, e);
      LeadsOn(r', 0, o);
    }
    LeadsOn(r', 0, p);
    NotTiles(r', p + needed);
    if Tiles(r', 0) {
      TilesFrom(r', 0, p + needed);
    }
  }

  lemma NotTiles(r: Sector, o: nat)
    requires !HeaderOk(r, o) && o < REGION
    ensures !Tiles(r, o)
  {
  }

  lemma CarvedBefore(r: Sector, o: nat, e: Entry)
    requires EntryOk(e) && HeaderOk(r, o) && Room(r, o, RecordSize(|e.name|)) && Carved(r, o, e).Some?
    ensures SameBytes(r, Carved(r, o, e).value, 0, o)
  {
    hide Stamped, Shortened, Freed, ReadLe16;
  }

  /**
   A split keeps the region an exact tiling if and only if the slack is not 4
   bytes; then it adds exactly the new entry, after the entry that was split.
   */
  lemma SplitTiles(r: Sector, o: nat, e: Entry)
    requires Tiles(r, 0) && LeadsTo(r, 0, o) && EntryOk(e) && HeaderOk(r, o) && Room(r, o, RecordSize(|e.name|))
    ensures (Carved(r, o, e).Some? && Tiles(Carved(r, o, e).value, 0)) <==> Slack(r, o, RecordSize(|e.name|)) != 4
    ensures Slack(r, o, RecordSize(|e.name|)) != 4 ==>
      InsertedAt(Entries(r, 0), Entries(Carved(r, o, e).value, 0), |EntriesTo(r, 0, o) + Live(r, o)|, e)
  {
    hide Live, ReadLe16, Carved, Tiles, Entries, EntriesTo, LeadsTo, SameBytes;
    CarvedFits(r, o, e);
    if Slack(r, o, RecordSize(|e.name|)) == 4 {
      if Carved(r, o, e).Some? {
        CarvedBroken(r, o, e);
      }
    } else {
      var r', end := Carved(r, o, e).value, o + LenAt(r, o);
      CarvedFrame(r, o, e);
      CarvedLeads(r, o, e);
      Replaced(r, r', o, end);
      Between(EntriesTo(r, 0, o), Live(r, o), e, Entries(r, end));
    }
  }

  lemma CarvedFits(r: Sector, o: nat, e: Entry)
    requires EntryOk(e) && HeaderOk(r, o) && Room(r, o, RecordSize(|e.name|))
    ensures Slack(r, o, RecordSize(|e.name|)) != 4 ==> Carved(r, o, e).Some?
  {
    hide Stamped, Shortened, Freed, ReadLe16;
    SlackMultiple(r, o, RecordSize(|e.name|));
  }

  lemma Between(a: seq<Entry>, l: seq<Entry>, e: Entry, c: seq<Entry>)
    ensures InsertedAt(a + (l + c), a + ((l + [e]) + c), |a + l|, e)
  {
  }
}
