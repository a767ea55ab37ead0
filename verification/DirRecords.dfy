/**
 The 512-byte regions of a UFS2 directory (kern/ufs2.c): variable-length records
 that tile the region, and what splitting a record does to them.
 */
module DirRecords {
  import opened Bytes

  const HEADER: nat := 8
  const REGION: nat := 512
  const MAXNAME: nat := 255

  type Name = seq<Byte>
  datatype Entry = Entry(name: Name, ino: nat, kind: Byte)

  /** ufs2_dir_record_size: header and name, rounded up to a multiple of 4. */
  function RecordSize(n: nat): (s: nat)
    ensures s % 4 == 0 && HEADER + n <= s < HEADER + n + 4
  {
    (HEADER + n + 3) / 4 * 4
  }

  function InoAt(r: Sector, o: nat): Word
    requires o + HEADER <= REGION
  {
    ReadLe32(r, o)
  }

  function LenAt(r: Sector, o: nat): nat
    requires o + HEADER <= REGION
  {
    ReadLe16(r, o + 4)
  }

  function NameLenAt(r: Sector, o: nat): nat
    requires o + HEADER <= REGION
  {
    r[o + 7]
  }

  /** The checks every scan makes of a record. */
  predicate HeaderOk(r: Sector, o: nat) {
    && o + HEADER <= REGION && HEADER <= LenAt(r, o) <= REGION - o && LenAt(r, o) % 4 == 0
    && NameLenAt(r, o) + HEADER <= LenAt(r, o)
  }

  function EntryAt(r: Sector, o: nat): Entry
    requires HeaderOk(r, o)
  {
    Entry(r[o + HEADER..o + HEADER + NameLenAt(r, o)], InoAt(r, o), r[o + 6])
  }

  /** The record's entry, if it is live. */
  function Live(r: Sector, o: nat): (s: seq<Entry>)
    requires HeaderOk(r, o)
  {
    if InoAt(r, o) != 0 then [EntryAt(r, o)] else []
  }

  /** From o on, records fill the region exactly. */
  predicate Tiles(r: Sector, o: nat)
    decreases REGION - o
  {
    o == REGION || (HeaderOk(r, o) && Tiles(r, o + LenAt(r, o)))
  }

  /** The live entries from o on. */
  function Entries(r: Sector, o: nat): seq<Entry>
    requires Tiles(r, o)
    decreases REGION - o
  {
    if o == REGION then [] else Live(r, o) + Entries(r, o + LenAt(r, o))
  }

  /** From a on, records lead to the record boundary o. */
  predicate LeadsTo(r: Sector, a: nat, o: nat)
    decreases REGION - a
  {
    a == o || (a < o && HeaderOk(r, a) && LeadsTo(r, a + LenAt(r, a), o))
  }

  function EntriesTo(r: Sector, a: nat, o: nat): seq<Entry>
    requires LeadsTo(r, a, o)
    decreases REGION - a
  {
    if a == o then [] else Live(r, a) + EntriesTo(r, a + LenAt(r, a), o)
  }

  predicate SameBytes(r: Sector, r': Sector, lo: nat, hi: nat)
    requires hi <= REGION
  {
    forall i :: lo <= i < hi ==> r'[i] == r[i]
  }

  lemma Narrower(r: Sector, r': Sector, lo: nat, hi: nat, lo': nat, hi': nat)
    requires lo <= lo' && hi' <= hi <= REGION && SameBytes(r, r', lo, hi)
    ensures SameBytes(r, r', lo', hi')
  {
  }

  /** A record is its bytes. */
  lemma SameRecord(r: Sector, r': Sector, o: nat)
    requires HeaderOk(r, o) && SameBytes(r, r', o, o + LenAt(r, o))
    ensures HeaderOk(r', o) && LenAt(r', o) == LenAt(r, o) && Live(r', o) == Live(r, o)
  {
    var n := NameLenAt(r, o);
    assert r'[o + HEADER..o + HEADER + n] == r[o + HEADER..o + HEADER + n];
  }

  lemma {:induction false} SameSuffix(r: Sector, r': Sector, o: nat)
    requires Tiles(r, o) && o <= REGION && SameBytes(r, r', o, REGION)
    ensures Tiles(r', o) && Entries(r', o) == Entries(r, o)
    decreases REGION - o
  {
    hide Live, SameBytes, ReadLe16;
    if o != REGION {
      Narrower(r, r', o, REGION, o, o + LenAt(r, o));
      Narrower(r, r', o, REGION, o + LenAt(r, o), REGION);
      SameRecord(r, r', o);
      SameSuffix(r, r', o + LenAt(r, o));
    }
  }

  lemma {:induction false} SamePrefix(r: Sector, r': Sector, a: nat, o: nat)
    requires LeadsTo(r, a, o) && o <= REGION && SameBytes(r, r', a, o)
    ensures LeadsTo(r', a, o) && EntriesTo(r', a, o) == EntriesTo(r, a, o)
    decreases REGION - a
  {
    hide Live, SameBytes, ReadLe16;
    if a != o {
      LeadsForward(r, a + LenAt(r, a), o);
      Narrower(r, r', a, o, a, a + LenAt(r, a));
      Narrower(r, r', a, o, a + LenAt(r, a), o);
      SameRecord(r, r', a);
      SamePrefix(r, r', a + LenAt(r, a), o);
    }
  }

  lemma LeadsForward(r: Sector, a: nat, o: nat)
    requires LeadsTo(r, a, o)
    ensures a <= o
  {
  }

  lemma {:induction false} LeadsOn(r: Sector, a: nat, o: nat)
    requires LeadsTo(r, a, o) && o < REGION && HeaderOk(r, o)
    ensures LeadsTo(r, a, o + LenAt(r, o))
    ensures EntriesTo(r, a, o + LenAt(r, o)) == EntriesTo(r, a, o) + Live(r, o)
    decreases REGION - a
  {
    hide Live;
    if a != o {
      LeadsOn(r, a + LenAt(r, a), o);
    }
  }

  /** A region splits at any record boundary. */
  lemma {:induction false} SplitAt(r: Sector, a: nat, o: nat)
    requires LeadsTo(r, a, o) && Tiles(r, o) && o <= REGION
    ensures Tiles(r, a) && Entries(r, a) == EntriesTo(r, a, o) + Entries(r, o)
    decreases REGION - a
  {
    hide Live;
    if a != o {
      LeadsForward(r, a + LenAt(r, a), o);
      SplitAt(r, a + LenAt(r, a), o);
    }
  }

  lemma {:induction false} TilesFrom(r: Sector, a: nat, o: nat)
    requires LeadsTo(r, a, o) && Tiles(r, a) && a <= o <= REGION
    ensures Tiles(r, o)
    decreases REGION - a
  {
    if a != o {
      LeadsForward(r, a + LenAt(r, a), o);
      TilesFrom(r, a + LenAt(r, a), o);
    }
  }

  /** Replacing one record by records that fill the same bytes. */
  lemma Replaced(r: Sector, r': Sector, o: nat, e: nat)
    requires Tiles(r, 0) && LeadsTo(r, 0, o) && HeaderOk(r, o) && e == o + LenAt(r, o)
    requires SameBytes(r, r', 0, o) && SameBytes(r, r', e, REGION) && LeadsTo(r', o, e)
    ensures Tiles(r', 0) && LeadsTo(r, 0, e) && Tiles(r, e)
    ensures Entries(r, 0) == EntriesTo(r, 0, o) + (Live(r, o) + Entries(r, e))
    ensures Entries(r', 0) == EntriesTo(r, 0, o) + (EntriesTo(r', o, e) + Entries(r, e))
  {
    hide Live, ReadLe16, SameBytes, Tiles, LeadsTo, Entries, EntriesTo;
    LeadsForward(r, 0, o);
    TilesFrom(r, 0, o);
    SplitAt(r, 0, o);
    OneRecord(r, o);
    LeadsOn(r, 0, o);
    SamePrefix(r, r', 0, o);
    SameSuffix(r, r', e);
    SplitAt(r', o, e);
    SplitAt(r', 0, o);
  }

  lemma OneRecord(r: Sector, o: nat)
    requires Tiles(r, o) && o < REGION
    ensures HeaderOk(r, o) && Tiles(r, o + LenAt(r, o)) && Entries(r, o) == Live(r, o) + Entries(r, o + LenAt(r, o))
  {
    hide Live, ReadLe16;
  }
}
