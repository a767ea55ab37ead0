/**
 Where the buffer cache runs dry: NBUF equals LOGSIZE, so a full header pins every
 buffer, and bget then finds none for the log block that commit asks for first.
 */
module BcacheLimits {
  import opened Bcache
  import opened BcacheRuns
  import opened Basics
  import opened Bytes

  ghost predicate Reachable(s: State) {
    exists s0, steps :: Init(s0) && Reaches(s0, steps, s)
  }

  lemma {:induction false} ReachesSnoc(s: State, steps: seq<Step>, t: State, step: Step)
    requires Reaches(s, steps, t) && StateOk(t) && Enabled(t, step)
    ensures Reaches(s, steps + [step], Next(t, step))
    decreases |steps|
  {
    hide Next, Enabled, StateOk;
    if steps == [] {
      assert steps + [step] == [step] && [step][1..] == [];
    } else {
      assert (steps + [step])[1..] == steps[1..] + [step];
      ReachesSnoc(Next(s, steps[0]), steps[1..], t, step);
    }
  }

  lemma ReachNext(s: State, step: Step)
    requires Reachable(s) && Inv(s) && Enabled(s, step)
    ensures Reachable(Next(s, step)) && Inv(Next(s, step))
  {
    hide Next, Enabled, Inv, Init;
    InvIsOk(s);
    StepInv(s, step);
    var s0, steps :| Init(s0) && Reaches(s0, steps, s);
    ReachesSnoc(s0, steps, s, step);
  }

  // ---------------------------------------------------------- how many fit

  /** The buffers that the log has pinned. */
  ghost function Dirty(c: Cache): (d: set<nat>)
    ensures forall b: nat :: b in d <==> b < |c.bufs| && c.bufs[b].dirty
  {
    set b: nat | b < |c.bufs| && c.bufs[b].dirty
  }

  ghost predicate Cached(c: Cache, key: Key) {
    exists b: nat :: b < |c.bufs| && c.bufs[b].key == key
  }

  lemma {:induction false} Below(n: nat) returns (s: set<nat>)
    ensures |s| == n && forall b: nat :: b in s <==> b < n
  {
    s := {};
    if n > 0 {
      var r := Below(n - 1);
      s := r + {n - 1};
    }
  }

  lemma SubsetSize(a: set<nat>, b: set<nat>)
    requires a <= b
    ensures |a| <= |b| && (|a| == |b| ==> a == b)
  {
    assert |b - a| + |a| == |b| by { assert b - a + a == b; }
    if |a| == |b| { assert b - a == {}; }
  }

  lemma AllDirty(c: Cache)
    requires |c.bufs| == NBUF
    ensures |Dirty(c)| <= NBUF && (|Dirty(c)| == NBUF <==> forall b: nat :: b < NBUF ==> c.bufs[b].dirty)
  {
    var all := Below(NBUF);
    SubsetSize(Dirty(c), all);
    if forall b: nat :: b < NBUF ==> c.bufs[b].dirty {
      assert Dirty(c) == all;
    }
  }

  /** While no bread is in flight, bget panics if and only if the block is not cached and NBUF blocks are pinned. */
  lemma PinnedOut(c: Cache, key: Key)
    requires CacheOk(c) && forall b: nat :: b < NBUF ==> c.bufs[b].refcnt == 0
    ensures Pick(c, key).None? <==> !Cached(c, key) && |Dirty(c)| == NBUF
  {
    hide Pick;
    PickFails(c, key);
    AllDirty(c);
  }

  // ---------------------------------------------------- the logged blocks

  /** No bread is in flight, and the pinned buffers hold the blocks keys, one each. */
  ghost predicate Pins(c: Cache, keys: seq<Key>) {
    && CacheOk(c) && (forall b: nat :: b < NBUF ==> c.bufs[b].refcnt == 0)
    && (forall b: nat :: b < NBUF && c.bufs[b].dirty ==> c.bufs[b].key in keys)
    && (forall i :: 0 <= i < |keys| ==> exists b: nat :: b < NBUF && c.bufs[b].dirty && c.bufs[b].key == keys[i])
    && forall a: nat, b: nat :: Same(c, a, b) ==> a == b
  }

  predicate Same(c: Cache, a: nat, b: nat) {
    a < |c.bufs| && b < |c.bufs| && c.bufs[a].dirty && c.bufs[b].dirty && c.bufs[a].key == c.bufs[b].key
  }

  ghost function KeysOf(c: Cache, d: set<nat>): set<Key>
    requires forall b :: b in d ==> b < |c.bufs|
  {
    set b | b in d :: c.bufs[b].key
  }

  lemma {:induction false} KeysSize(c: Cache, d: set<nat>)
    requires d <= Dirty(c) && forall a: nat, b: nat :: Same(c, a, b) ==> a == b
    ensures |KeysOf(c, d)| == |d|
    decreases d
  {
    if d != {} {
      var b :| b in d;
      var rest := d - {b};
      KeysSize(c, rest);
      forall a | a in rest
        ensures c.bufs[a].key != c.bufs[b].key
      {
        assert !Same(c, a, b);
      }
      assert KeysOf(c, d) == KeysOf(c, rest) + {c.bufs[b].key};
    }
  }

  lemma {:induction false} DistinctKeys(keys: seq<Key>)
    requires Distinct(keys)
    ensures |set k | k in keys| == |keys|
  {
    if keys != [] {
      var r := keys[..|keys| - 1];
      DistinctKeys(r);
      assert keys == r + [keys[|r|]];
      assert (set k | k in keys) == (set k | k in r) + {keys[|r|]};
    } else {
      assert (set k | k in keys) == {};
    }
  }

  /** As many buffers are pinned as blocks are logged. */
  lemma PinsCount(c: Cache, keys: seq<Key>)
    requires Pins(c, keys) && Distinct(keys)
    ensures |Dirty(c)| == |keys|
  {
    KeysSize(c, Dirty(c));
    DistinctKeys(keys);
    assert KeysOf(c, Dirty(c)) == set k | k in keys;
  }

  /** With the logged blocks pinned, bget panics for any other block if and only if NBUF blocks are logged. */
  lemma LoggedOut(c: Cache, keys: seq<Key>, key: Key)
    requires Pins(c, keys) && Distinct(keys) && key !in keys
    ensures Pick(c, key).None? ==> |keys| == NBUF
    ensures |keys| == NBUF ==> Pick(c, key).None?
  {
    hide Pick, Pins;
    assert CacheOk(c) && forall b: nat :: b < NBUF ==> c.bufs[b].refcnt == 0 by { PinsParts(c, keys); }
    PinnedOut(c, key);
    PinsCount(c, keys);
    if |keys| == NBUF {
      AllDirty(c);
      PinsParts(c, keys);
    }
  }

  lemma PinsParts(c: Cache, keys: seq<Key>)
    requires Pins(c, keys)
    ensures CacheOk(c) && forall b: nat :: b < NBUF ==> c.bufs[b].refcnt == 0
    ensures forall b: nat :: b < NBUF && c.bufs[b].dirty ==> c.bufs[b].key in keys
  {
  }

  // ------------------------------------------------- a run that gets there

  /** Different blocks of the disk, none of them the one that new buffers claim. */
  predicate Loggable(disk: map<Key, Block>, keys: seq<Key>) {
    Distinct(keys) && |keys| <= NBUF && FRESHBUF.key !in keys && forall i :: 0 <= i < |keys| ==> keys[i] in disk
  }

  /** The first i blocks are pinned, and the others are not cached. */
  ghost predicate Pinned(s: State, keys: seq<Key>, i: nat)
    requires i <= |keys|
  {
    && Inv(s) && s.uses == map[] && Loggable(s.disk, keys) && Pins(s.c, keys[..i])
    && forall b: nat, j: nat :: b < NBUF && i <= j < |keys| ==> s.c.bufs[b].key != keys[j]
  }

  lemma GetFree(s: State, keys: seq<Key>, i: nat) returns (b: nat)
    requires i < |keys| && Pinned(s, keys, i)
    ensures b < NBUF && !s.c.bufs[b].dirty && Pick(s.c, keys[i]) == Some(b) && s.c.bufs[b].key != keys[i]
  {
    hide Pick, BufOk, UseOk, FirstOnly;
    LoggedOut(s.c, keys[..i], keys[i]);
    b := Pick(s.c, keys[i]).value;
    PickIs(s.c, keys[i]);
  }

  /** The buffer after bread, log_write and brelse of a block. */
  ghost predicate Logged(s: State, t: State, b: nat, key: Key) {
    && b < NBUF && t.uses == map[] && t.disk == s.disk && |s.c.bufs| == |t.c.bufs| == NBUF
    && t.c.bufs[b].key == key && t.c.bufs[b].dirty && t.c.bufs[b].refcnt == 0
    && forall a: nat :: a < NBUF && a != b ==> t.c.bufs[a] == s.c.bufs[a]
  }

  lemma LogNext(s: State, t: State, keys: seq<Key>, b: nat, i: nat)
    requires i < |keys| && Pinned(s, keys, i) && b < NBUF && !s.c.bufs[b].dirty && Logged(s, t, b, keys[i]) && Inv(t)
    ensures Pinned(t, keys, i + 1)
  {
    hide BufOk, UseOk, FirstOnly;
    PinsNext(s.c, t.c, keys, b, i);
  }

  lemma PinsNext(c: Cache, d: Cache, keys: seq<Key>, b: nat, i: nat)
    requires i < |keys| && Pins(c, keys[..i]) && CacheOk(d) && b < NBUF && !c.bufs[b].dirty && keys[i] !in keys[..i]
    requires d.bufs[b].key == keys[i] && d.bufs[b].dirty && d.bufs[b].refcnt == 0
    requires forall a: nat :: a < NBUF && a != b ==> d.bufs[a] == c.bufs[a]
    ensures Pins(d, keys[..i + 1])
  {
    var now := keys[..i + 1];
    assert now == keys[..i] + [keys[i]];
    forall j | 0 <= j < |now|
      ensures exists a: nat :: a < NBUF && d.bufs[a].dirty && d.bufs[a].key == now[j]
    {
      if j < i {
        var a: nat :| a < NBUF && c.bufs[a].dirty && c.bufs[a].key == keys[..i][j];
        assert d.bufs[a].dirty && d.bufs[a].key == now[j];
      }
    }
    forall a: nat, e: nat | Same(d, a, e)
      ensures a == e
    {
      assert a != b && e != b ==> Same(c, a, e);
    }
  }

  /** One bread with its steps up to log_write. */
  lemma BreadAndLog(s: State, keys: seq<Key>, i: nat) returns (t: State, b: nat)
    requires i < |keys| && Reachable(s) && Pinned(s, keys, i)
    ensures Reachable(t) && Inv(t) && b < NBUF && !s.c.bufs[b].dirty && t.disk == s.disk
    ensures t.uses == map[0 := Use(keys[i], b, Ready(false))] && |t.c.bufs| == |s.c.bufs| == NBUF
    ensures t.c.bufs[b].key == keys[i] && t.c.bufs[b].dirty && t.c.bufs[b].refcnt == 1
    ensures forall a: nat :: a < NBUF && a != b ==> t.c.bufs[a] == s.c.bufs[a]
  {
    hide Reachable, Pick, BufOk, UseOk, FirstOnly, Pins;
    b := GetFree(s, keys, i);
    ReachNext(s, Get(0, keys[i]));
    t := Next(s, Get(0, keys[i]));
    ReachNext(t, Acquire(0));
    t := Next(t, Acquire(0));
    ReachNext(t, Fill(0));
    t := Next(t, Fill(0));
    ReachNext(t, LogWrite(0));
    t := Next(t, LogWrite(0));
  }

  lemma LogOne(s: State, keys: seq<Key>, i: nat) returns (t: State)
    requires i < |keys| && Reachable(s) && Pinned(s, keys, i)
    ensures Reachable(t) && Pinned(t, keys, i + 1) && t.disk == s.disk
  {
    hide Reachable, Pick, BufOk, UseOk, FirstOnly, Front, Pins;
    var b: nat;
    t, b := BreadAndLog(s, keys, i);
    ReachNext(t, Unlock(0));
    t := Next(t, Unlock(0));
    assert t.c.bufs[b].refcnt == 1;
    ReachNext(t, BcacheRuns.Put(0));
    t := Next(t, BcacheRuns.Put(0));
    assert t.uses == map[];
    LogNext(s, t, keys, b, i);
  }

  lemma {:induction false} PinMany(s0: State, keys: seq<Key>, i: nat) returns (s: State)
    requires Init(s0) && i <= |keys| && Loggable(s0.disk, keys)
    ensures Reachable(s) && Pinned(s, keys, i) && s.disk == s0.disk
  {
    hide Reaches, Inv;
    if i == 0 {
      s := s0;
      assert Reaches(s0, [], s0) by { Nothing(s0); }
      InitInv(s0);
    } else {
      s := PinMany(s0, keys, i - 1);
      s := LogOne(s, keys, i - 1);
    }
  }

  lemma Nothing(s: State)
    ensures Reaches(s, [], s)
  {
  }

  /**
   Log any blocks after boot, and then read another one, as commit reads its first log
   block: bget panics if and only if NBUF blocks were logged. log_write lets so many
   through in a log of more than LOGSIZE blocks, or when two processes pass its test at
   once.
   */
  lemma FullLogStops(s0: State, keys: seq<Key>, key: Key) returns (s: State)
    requires Init(s0) && Loggable(s0.disk, keys) && key in s0.disk && key !in keys
    ensures Reachable(s) && StateOk(s) && s.uses == map[] && Pins(s.c, keys)
    ensures Enabled(s, Get(0, key)) <==> |keys| < NBUF
  {
    hide Reachable, Pick, BufOk, UseOk, FirstOnly;
    s := PinMany(s0, keys, |keys|);
    assert keys[..|keys|] == keys;
    LoggedOut(s.c, keys, key);
  }
}
