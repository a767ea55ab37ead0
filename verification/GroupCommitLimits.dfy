/**
 Where the log's reservation is not enough: runs that every step of log.c allows,
 that overflow a log no larger than LOGSIZE blocks, corrupt a disk whose log is
 smaller than that, or stop on a full header.
 */
module GroupCommitLimits {
  import BcacheLimits
  import BcacheRuns
  import opened Basics
  import opened Bytes
  import opened LogSpec
  import opened Log
  import opened GroupCommit
  import opened GroupCommitProof
  import opened GroupCommitRuns

  ghost predicate Reachable(c: Config, s: State) {
    exists steps :: Reaches(c, Start(c), steps, s)
  }

  lemma {:induction false} ReachesSnoc(c: Config, s: State, steps: seq<Step>, t: State, step: Step)
    requires Reaches(c, s, steps, t) && Enabled(c, t, step)
    ensures Reaches(c, s, steps + [step], Next(c, t, step))
    decreases |steps|
  {
    hide Next, Enabled;
    if steps == [] {
      assert steps + [step] == [step] && [step][1..] == [];
    } else {
      assert (steps + [step])[1..] == steps[1..] + [step];
      ReachesSnoc(c, Next(c, s, steps[0]), steps[1..], t, step);
    }
  }

  lemma ReachNext(c: Config, s: State, step: Step)
    requires Reachable(c, s) && Enabled(c, s, step)
    ensures Reachable(c, Next(c, s, step))
  {
    hide Next, Enabled;
    var steps :| Reaches(c, Start(c), steps, s);
    ReachesSnoc(c, Start(c), steps, s, step);
  }

  /** Three processes and thirty home blocks after the log. */
  predicate Ample(c: Config) {
    && ConfigOk(c) && 3 <= c.nproc && 2 <= c.lay.size
    && c.lay.start + c.lay.size + LOGSIZE <= |c.disk| < 0x1_0000_0000
  }

  function Blk(c: Config, i: nat): (b: Word)
    requires Ample(c) && i < LOGSIZE
    ensures Home(c, b)
  {
    c.lay.start + c.lay.size + i
  }

  /** Which of the three processes logs the i-th block: ten each, the last two by processes 1 and 2. */
  function Owner(i: nat): nat {
    if i < 10 then 0 else if i < 19 then 1 else if i < 28 then 2 else if i == 28 then 1 else 2
  }

  function Logged(c: Config, i: nat, p: nat): (s: set<Word>)
    requires Ample(c) && i <= LOGSIZE
    ensures |s| <= Quota(i, p)
    ensures forall b :: b in s ==> b < c.lay.start + c.lay.size + i
  {
    if i == 0 then {}
    else Logged(c, i - 1, p) + if Owner(i - 1) == p then {Blk(c, i - 1)} else {}
  }

  function Quota(i: nat, p: nat): nat {
    if i == 0 then 0 else Quota(i - 1, p) + if Owner(i - 1) == p then 1 else 0
  }

  /** Quotas in closed form. */
  lemma {:induction false} QuotaIs(i: nat)
    requires i <= LOGSIZE
    ensures Quota(i, 0) == if i < 10 then i else 10
    ensures Quota(i, 1) == if i < 10 then 0 else if i < 19 then i - 10 else if i < 29 then 9 else 10
    ensures Quota(i, 2) == if i < 19 then 0 else if i < 28 then i - 19 else if i < 30 then 9 else 10
  {
    if i > 0 {
      QuotaIs(i - 1);
    }
  }

  /** Three open operations have logged the first i blocks between them. */
  predicate Shape(c: Config, s: State, i: nat)
    requires Ample(c) && i <= LOGSIZE
  {
    && s.mode.Up? && !s.committing && s.outstanding == 3 && |s.procs| == c.nproc
    && (forall p :: 0 <= p < 3 ==> s.procs[p].InOp? && s.procs[p].logged == Logged(c, i, p) && s.procs[p].hold.Nothing?)
    && (forall p :: 3 <= p < c.nproc ==> s.procs[p].Outside?)
    && |s.lh| == i && (forall j :: 0 <= j < i ==> s.lh[j] == Blk(c, j))
    && s.disk == c.disk && s.committed == []
  }

  lemma Opened(c: Config) returns (s: State)
    requires Ample(c)
    ensures Reachable(c, s) && Shape(c, s, 0)
  {
    s := Start(c);
    assert Reaches(c, Start(c), [], s);
    for p := 0 to 3
      invariant Reachable(c, s) && s.mode.Up? && !s.committing && s.outstanding == p && |s.procs| == c.nproc
      invariant s.lh == [] && s.disk == c.disk && s.committed == []
      invariant forall q :: 0 <= q < p ==> s.procs[q].InOp? && s.procs[q].logged == {} && s.procs[q].hold.Nothing?
      invariant forall q :: p <= q < c.nproc ==> s.procs[q].Outside?
    {
      ReachNext(c, s, Begin(p));
      s := Next(c, s, Begin(p));
    }
  }

  const ZERO: Block := Block(Zeros(512))

  lemma TakeOne(c: Config, s: State, p: nat, b: Word, d: Block) returns (t: State)
    requires Reachable(c, s) && s.mode.Up? && p < |s.procs| && s.procs[p].InOp? && s.procs[p].hold.Nothing?
    requires Home(c, b) && |s.procs[p].logged + {b}| <= MAXOPBLOCKS
    requires forall q :: 0 <= q < |s.procs| && s.procs[q].InOp? && !s.procs[q].hold.Nothing? ==>
        s.procs[q].hold.blk != b
    ensures t == s.(procs := s.procs[p := s.procs[p].(hold := Modified(b, d))]) && Reachable(c, t)
  {
    hide Reachable;
    ReachNext(c, s, Take(p, b, d));
    t := Next(c, s, Take(p, b, d));
  }

  lemma CheckOne(c: Config, s: State, p: nat) returns (t: State)
    requires Reachable(c, s) && s.mode.Up? && p < |s.procs| && s.procs[p].InOp? && s.procs[p].hold.Modified?
    requires !TooBig(c.lay, |s.lh|) && s.outstanding >= 1
    ensures t == s.(procs := s.procs[p := s.procs[p].(hold := Checked(s.procs[p].hold.blk, s.procs[p].hold.data))])
    ensures Reachable(c, t)
  {
    hide Reachable;
    ReachNext(c, s, Check(p));
    t := Next(c, s, Check(p));
  }

  lemma RecordOne(c: Config, s: State, p: nat) returns (t: State)
    requires Reachable(c, s) && s.mode.Up? && p < |s.procs| && s.procs[p].InOp? && s.procs[p].hold.Checked?
    requires s.procs[p].hold.blk !in s.lh
    ensures Reachable(c, t) && t.mode.Up? && t.committing == s.committing && t.outstanding == s.outstanding
    ensures t.procs == s.procs[p := InOp(s.procs[p].op, s.procs[p].logged + {s.procs[p].hold.blk}, Nothing)]
    ensures t.lh == s.lh + [s.procs[p].hold.blk] && t.disk == s.disk && t.committed == s.committed
    ensures t.pinned == s.pinned[s.procs[p].hold.blk as nat := s.procs[p].hold.data]
  {
    hide Reachable;
    ReachNext(c, s, Record(p));
    t := Next(c, s, Record(p));
  }

  lemma LoggedNext(c: Config, i: nat, p: nat)
    requires Ample(c) && i < LOGSIZE
    ensures Logged(c, i + 1, p) == Logged(c, i, p) + if Owner(i) == p then {Blk(c, i)} else {}
  {
  }

  lemma ShapeNext(c: Config, s: State, t: State, i: nat)
    requires Ample(c) && i < LOGSIZE && Shape(c, s, i)
    requires t.mode == s.mode && t.committing == s.committing && t.outstanding == s.outstanding
    requires var p := Owner(i);
             t.procs == s.procs[p := InOp(s.procs[p].op, s.procs[p].logged + {Blk(c, i)}, Nothing)]
    requires t.lh == s.lh + [Blk(c, i)] && t.disk == s.disk && t.committed == s.committed
    ensures Shape(c, t, i + 1)
  {
    hide Logged, Quota;
    forall q | 0 <= q < 3
      ensures t.procs[q].InOp? && t.procs[q].logged == Logged(c, i + 1, q) && t.procs[q].hold.Nothing?
    {
      LoggedNext(c, i, q);
    }
  }

  /** Take, test and record one more block. */
  lemma LogOne(c: Config, s: State, i: nat) returns (t: State)
    requires Ample(c) && i < LOGSIZE && i < c.lay.size - 1 && Reachable(c, s) && Shape(c, s, i)
    ensures Reachable(c, t) && Shape(c, t, i + 1)
  {
    hide Reachable, Logged, Quota;
    var p, b := Owner(i), Blk(c, i);
    QuotaIs(i);
    t := TakeOne(c, s, p, b, ZERO);
    t := CheckOne(c, t, p);
    t := RecordOne(c, t, p);
    ShapeNext(c, s, t, i);
  }

  lemma {:induction false} Fill(c: Config, i: nat) returns (s: State)
    requires Ample(c) && i <= LOGSIZE && i < c.lay.size
    ensures Reachable(c, s) && Shape(c, s, i)
  {
    hide Reaches;
    if i == 0 {
      s := Opened(c);
    } else {
      var r := Fill(c, i - 1);
      s := LogOne(c, r, i - 1);
    }
  }

  /** The header of three finished operations names as many blocks as the region has, the last one holding d. */
  predicate Overfull(c: Config, s: State, d: Block)
    requires Ample(c)
  {
    && s.mode.Up? && !s.committing && |s.procs| == c.nproc && |s.lh| == c.lay.size && HomeBlocks(c.lay, |c.disk|, s.lh)
    && s.lh[c.lay.size - 1] in s.pinned && s.pinned[s.lh[c.lay.size - 1]] == d
    && s.disk == c.disk && s.committed == []
  }

  /**
   The panic test is made without the lock. In a log of at most LOGSIZE blocks
   (mkfs makes exactly LOGSIZE) two operations, each within its MAXOPBLOCKS, can
   both pass it and then both append: the header names as many blocks as the log
   region has in all, and the log block of the last one is the block after the log.
   */
  lemma SmallLogOverflows(c: Config, d: Block) returns (s: State)
    requires Ample(c) && c.lay.size <= LOGSIZE
    ensures Reachable(c, s) && Overfull(c, s, d) && s.outstanding == 3
    ensures forall p :: 0 <= p < 3 ==> s.procs[p].InOp? && s.procs[p].hold.Nothing?
    ensures !InLog(c.lay, c.lay.start + 1 + (|s.lh| - 1))
  {
    hide Reachable, Logged, Quota;
    var m := c.lay.size - 2;
    var s0 := Fill(c, m);
    var s1 := PassBoth(c, s0, m, d);
    assert Blk(c, m) !in s1.lh && Blk(c, m + 1) !in s1.lh;
    s := RecordOne(c, s1, 1);
    s := RecordOne(c, s, 2);
  }

  /** Processes 1 and 2 pass the test one after the other, before either appends. */
  lemma PassBoth(c: Config, s0: State, m: nat, d: Block) returns (s: State)
    requires Ample(c) && m + 1 < LOGSIZE && m < c.lay.size - 1 && Reachable(c, s0) && Shape(c, s0, m)
    ensures Reachable(c, s)
    ensures var p, q := s0.procs[1].(hold := Checked(Blk(c, m), ZERO)), s0.procs[2].(hold := Checked(Blk(c, m + 1), d));
            s == s0.(procs := s0.procs[1 := p][2 := q])
  {
    hide Reachable, Logged, Quota;
    QuotaIs(m);
    s := TakeOne(c, s0, 1, Blk(c, m), ZERO);
    s := CheckOne(c, s, 1);
    s := TakeOne(c, s, 2, Blk(c, m + 1), d);
    s := CheckOne(c, s, 2);
  }

  /** Two operations end, and the third one's end_op begins the commit. */
  lemma EndThree(c: Config, s: State, d: Block) returns (t: State)
    requires Ample(c) && c.lay.size < Bcache.NBUF && Reachable(c, s) && Overfull(c, s, d) && s.outstanding == 3
    requires forall p :: 0 <= p < 3 ==> s.procs[p].InOp? && s.procs[p].hold.Nothing?
    ensures Reachable(c, t) && CopyingAt(c, s, t, 0) && t.disk == c.disk
  {
    hide Reachable;
    ReachNext(c, s, End(0));
    t := Next(c, s, End(0));
    ReachNext(c, t, End(1));
    t := Next(c, t, End(1));
    ReachNext(c, t, End(2));
    t := Next(c, t, End(2));
  }

  /** The commit has made k of its log copies and nothing else. */
  predicate CopyingAt(c: Config, s: State, t: State, k: nat)
    requires Fits(c.lay, c.disk)
  {
    && t.mode.Up? && |t.procs| == c.nproc && 3 <= c.nproc && t.procs[2] == Committing(Copying(k)) && t.lh == s.lh
    && t.pinned == s.pinned && |t.disk| == |c.disk| && t.disk[c.lay.start] == c.disk[c.lay.start] && t.committed == []
  }

  lemma CopyOne(c: Config, s: State, r: State, k: nat) returns (t: State)
    requires Ample(c) && c.lay.size < Bcache.NBUF && Reachable(c, r) && CopyingAt(c, s, r, k)
    requires |s.lh| == c.lay.size && HomeBlocks(c.lay, |c.disk|, s.lh) && k < |s.lh|
    ensures Reachable(c, t) && t.disk == r.disk[c.lay.start + 1 + k := View(r.disk, r.pinned, s.lh[k])]
    ensures t.committed == [] && (k + 1 < |s.lh| ==> CopyingAt(c, s, t, k + 1))
  {
    hide Reachable, View;
    assert s.lh[k] < |r.disk|;
    ReachNext(c, r, CommitWrite(2));
    t := Next(c, r, CommitWrite(2));
  }

  lemma {:induction false} CopyFirst(c: Config, s: State, d: Block, k: nat) returns (t: State)
    requires Ample(c) && c.lay.size < Bcache.NBUF && Reachable(c, s) && Overfull(c, s, d) && s.outstanding == 3
    requires forall p :: 0 <= p < 3 ==> s.procs[p].InOp? && s.procs[p].hold.Nothing?
    requires k < c.lay.size
    ensures Reachable(c, t) && CopyingAt(c, s, t, k)
  {
    hide Reachable, View;
    if k == 0 {
      t := EndThree(c, s, d);
    } else {
      t := CopyFirst(c, s, d, k - 1);
      t := CopyOne(c, s, t, k - 1);
    }
  }

  /** A block unlike b. */
  function Unlike(b: Block): (d: Block)
    ensures d != b
  {
    var one := Block(Zeros(512)[0 := 1]);
    assert one.bytes[0] != ZERO.bytes[0];
    if b == ZERO then one else ZERO
  }

  /**
   In a log of fewer than NBUF blocks that commit finds a buffer for its copies, and
   overwrites the home block behind the region before it has committed anything: a
   crash now is recovered to a disk that no sequence of groups explains.
   */
  lemma SmallLogCorrupts(c: Config) returns (s: State)
    requires Ample(c) && c.lay.size < Bcache.NBUF
    ensures Reachable(c, s) && LogOk(c.lay, s.disk) && s.committed == []
    ensures !SameHome(c.lay, Recovered(c.lay, s.disk), Replay(c.disk, s.committed))
  {
    hide Reachable, Recovered, Count;
    var n, x := c.lay.size, c.lay.start + c.lay.size;
    var s0 := SmallLogOverflows(c, Unlike(c.disk[x]));
    s := CopyFirst(c, s0, Unlike(c.disk[x]), n - 1);
    s := CopyOne(c, s0, s, n - 1);
    assert LogOk(c.lay, s.disk) by { assert Blocks(s.disk[c.lay.start]) == []; }
    RecoveredIs(c.lay, s.disk);
    assert !InLog(c.lay, x) && Recovered(c.lay, s.disk)[x] == s.disk[x] != c.disk[x];
    assert Replay(c.disk, []) == c.disk;
  }

  /**
   The panic test is made before the block is looked up, so even in a larger log an
   operation that only rewrites a block it has already logged stops the machine
   when the header is full.
   */
  lemma AbsorbedWriteHalts(c: Config) returns (s: State, p: nat)
    requires Ample(c) && LOGSIZE < c.lay.size
    ensures Reachable(c, s) && Enabled(c, s, Check(p)) && s.procs[p].hold.blk in s.procs[p].logged
    ensures Next(c, s, Check(p)).mode.Halted?
  {
    hide Reaches;
    var s0 := Fill(c, LOGSIZE);
    QuotaIs(LOGSIZE);
    p := 0;
    var b := Blk(c, 0);
    InLogged(c, LOGSIZE);
    assert Logged(c, LOGSIZE, 0) + {b} == Logged(c, LOGSIZE, 0);
    s := TakeOne(c, s0, p, b, ZERO);
  }

  lemma {:induction false} InLogged(c: Config, i: nat)
    requires Ample(c) && 1 <= i <= LOGSIZE
    ensures Blk(c, 0) in Logged(c, i, 0)
  {
    if i > 1 {
      InLogged(c, i - 1);
    }
  }

  /** The header stays inside the log region in every run exactly when the region is larger than LOGSIZE. */
  lemma LogFitsExactlyWhen(c: Config)
    requires Ample(c)
    ensures (forall s :: Reachable(c, s) && s.mode.Up? ==> |s.lh| < c.lay.size) <==> LOGSIZE < c.lay.size
  {
    hide Reaches;
    if LOGSIZE < c.lay.size {
      forall s | Reachable(c, s) && s.mode.Up?
        ensures |s.lh| < c.lay.size
      {
        var steps :| Reaches(c, Start(c), steps, s);
        HeaderBound(c, steps, s);
      }
    } else {
      var s := SmallLogOverflows(c, ZERO);
    }
  }

  /** A crash now is recovered to the committed groups, whole and in order. */
  ghost predicate Survives(c: Config, s: State) {
    LogOk(c.lay, s.disk) && SameHome(c.lay, Recovered(c.lay, s.disk), Replay(c.disk, s.committed))
  }

  /**
   Every state of every run survives a crash exactly when the region has NBUF blocks
   or more: a header too long for such a region pins every buffer, and its commit
   panics before it writes anything.
   */
  lemma SurvivesExactlyWhen(c: Config)
    requires Ample(c)
    ensures (forall s :: Reachable(c, s) ==> Survives(c, s)) <==> Bcache.NBUF <= c.lay.size
  {
    hide Reaches, Recovered, Replay, Count;
    if Bcache.NBUF <= c.lay.size {
      forall s | Reachable(c, s)
        ensures Survives(c, s)
      {
        var steps :| Reaches(c, Start(c), steps, s);
        RoomyContains(c, steps, s);
        RecoversToWholeGroups(c, steps, s);
      }
    } else {
      var s := SmallLogCorrupts(c);
      assert !Survives(c, s);
    }
  }

  // -------------------------------------------------- commit and the cache

  /** Three open operations have filled the header. */
  lemma FullHeader(c: Config) returns (s: State)
    requires Ample(c) && LOGSIZE <= c.lay.size
    ensures Reachable(c, s) && s.mode.Up? && !s.committing && s.outstanding == 3 && |s.procs| == c.nproc
    ensures |s.lh| == LOGSIZE && forall p :: 0 <= p < 3 ==> s.procs[p].InOp? && s.procs[p].hold.Nothing?
  {
    hide Reachable, Logged, Quota;
    if c.lay.size == LOGSIZE {
      s := SmallLogOverflows(c, ZERO);
    } else {
      s := Fill(c, LOGSIZE);
    }
  }

  /**
   In every log of LOGSIZE blocks or more, some run fills the header with operations
   that keep to their MAXOPBLOCKS, and the machine stops when their group commits.
   */
  lemma FullGroupHalts(c: Config) returns (s: State, p: nat)
    requires Ample(c) && LOGSIZE <= c.lay.size
    ensures Reachable(c, s) && Enabled(c, s, End(p)) && s.outstanding == 1 && |s.lh| == LOGSIZE
    ensures Next(c, s, End(p)).mode.Halted?
  {
    hide Reachable;
    s := FullHeader(c);
    ReachNext(c, s, End(0));
    s := Next(c, s, End(0));
    ReachNext(c, s, End(1));
    s := Next(c, s, End(1));
    p := 2;
  }

  /** The cache keys of the logged blocks. */
  function LogKeys(dev: nat, lh: seq<Word>): (keys: seq<Bcache.Key>)
    ensures |keys| == |lh| && forall i :: 0 <= i < |lh| ==> keys[i] == Bcache.Key(dev, lh[i])
  {
    seq(|lh|, i requires 0 <= i < |lh| => Bcache.Key(dev, lh[i]))
  }

  /** The block that write_log reads first. */
  function FirstCopy(c: Config, dev: nat): Bcache.Key {
    Bcache.Key(dev, c.lay.start + 1)
  }

  lemma LogKeysOk(c: Config, s: State, dev: nat)
    requires HeaderOk(c, s) && 2 <= c.lay.size
    ensures Distinct(LogKeys(dev, s.lh)) && FirstCopy(c, dev) !in LogKeys(dev, s.lh)
  {
    forall i | 0 <= i < |s.lh|
      ensures LogKeys(dev, s.lh)[i] != FirstCopy(c, dev)
    {
      assert Home(c, s.lh[i]);
    }
  }

  /**
   The two machines agree: with the buffers of the group pinned and no other in use,
   the committing end_op stops exactly when bget finds no buffer for the first log
   block.
   */
  lemma CommitStopsInBget(c: Config, steps: seq<Step>, s: State, p: nat, dev: nat, cache: Bcache.Cache)
    requires 2 <= c.lay.size && Reaches(c, Start(c), steps, s) && Enabled(c, s, End(p)) && s.outstanding == 1
    requires BcacheLimits.Pins(cache, LogKeys(dev, s.lh))
    ensures Next(c, s, End(p)).mode.Halted? <==> Bcache.Pick(cache, FirstCopy(c, dev)).None?
  {
    hide Next, Bcache.Pick, BcacheLimits.Pins, Reaches;
    HeaderIsHome(c, steps, s);
    LogKeysOk(c, s, dev);
    BcacheLimits.LoggedOut(cache, LogKeys(dev, s.lh), FirstCopy(c, dev));
    CommitStopsExactlyWhen(c, steps, s, p);
  }

  /** The cache does get there: some run of it from boot pins just the buffers of the group. */
  lemma GroupIsPinned(c: Config, steps: seq<Step>, s: State, dev: nat, b0: BcacheRuns.State)
      returns (b: BcacheRuns.State)
    requires 2 <= c.lay.size && Reaches(c, Start(c), steps, s) && s.mode.Up? && dev != 0
    requires BcacheRuns.Init(b0) && FirstCopy(c, dev) in b0.disk
    requires forall i :: 0 <= i < |s.lh| ==> Bcache.Key(dev, s.lh[i]) in b0.disk
    ensures BcacheLimits.Reachable(b) && BcacheLimits.Pins(b.c, LogKeys(dev, s.lh))
  {
    hide Next, Bcache.Pick, BcacheLimits.Pins, BcacheLimits.Reachable, Reaches;
    HeaderIsHome(c, steps, s);
    HeaderBound(c, steps, s);
    LogKeysOk(c, s, dev);
    b := BcacheLimits.FullLogStops(b0, LogKeys(dev, s.lh), FirstCopy(c, dev));
  }
}
