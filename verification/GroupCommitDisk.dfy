/**
 The disk side of the group-commit machine: in every state, recovery would yield
 exactly the committed groups, applied whole and in order.
 */
module GroupCommitDisk {
  import opened Bytes
  import opened LogSpec
  import opened Log
  import opened GroupCommit
  import opened GroupCommitProof

  /** The initial disk with every committed group's writes applied, in order. */
  function Whole(c: Config, s: State): (d: Disk)
    ensures |d| == |c.disk|
  {
    Replay(c.disk, s.committed)
  }

  /** Whole, and then the open group's writes: what the file system sees. */
  function Newest(c: Config, s: State): (d: Disk)
    ensures |d| == |c.disk|
  {
    Apply(Whole(c, s), Writes(s.current))
  }

  /** What a crash now and a completed recovery would leave. */
  predicate Safe(c: Config, s: State) {
    LogOk(c.lay, s.disk) && SameHome(c.lay, Recovered(c.lay, s.disk), Whole(c, s))
  }

  /** Between commits. */
  predicate OpenOk(c: Config, s: State) {
    && Fits(c.lay, s.disk) && |s.disk| == |c.disk| && Count(s.disk[c.lay.start]) == 0
    && HomeBlocks(c.lay, |s.disk|, s.lh) && s.pinned.Keys == Names(s.lh)
    && (s.lh == [] ==> s.current == [])
    && SameHome(c.lay, s.disk, Whole(c, s)) && BuffersShow(c, s)
  }

  predicate BuffersShow(c: Config, s: State)
    requires |s.disk| == |c.disk|
  {
    forall b :: 0 <= b < |c.disk| && !InLog(c.lay, b) ==> View(s.disk, s.pinned, b) == Newest(c, s)[b]
  }

  /** How many of the commit's block writes are behind a process in this phase. */
  function Index(phase: Phase, n: nat): nat {
    match phase
    case Copying(t) => t
    case Heading => n
    case Installing(t) => n + 1 + t
    case Clearing => 2 * n + 1
    case Finishing => if n == 0 then 0 else 2 * n + 2
  }

  /** The job is what the buffers held when the commit began, and it means the open group. */
  predicate JobOk(c: Config, s: State) {
    && Loggable(c.lay, s.base, s.job, s.data) && |s.base| == |c.disk|
  }

  predicate BeforeHeader(c: Config, s: State)
    requires JobOk(c, s)
  {
    && s.lh == s.job && s.pinned.Keys == Names(s.job) && s.data == Held(s.pinned, s.job)
    && (s.job == [] ==> s.current == [])
    && SameHome(c.lay, s.base, Whole(c, s))
    && IsUpdated(c.lay, s.base, s.job, s.data, Newest(c, s))
  }

  predicate AfterHeader(c: Config, s: State, phase: Phase)
    requires JobOk(c, s)
  {
    && s.current == [] && IsUpdated(c.lay, s.base, s.job, s.data, Whole(c, s))
    && match phase
       case Installing(t) => t < |s.job| && s.lh == s.job && s.pinned.Keys == Names(s.job) - Names(s.job[..t])
       case Clearing => s.lh == s.job && s.pinned == map[]
       case Finishing => s.lh == [] && s.pinned == map[]
       case _ => false
  }

  predicate CommitOk(c: Config, s: State, phase: Phase) {
    && JobOk(c, s)
    && Index(phase, |s.job|) <= |CommitWrites(c.lay, s.base, s.job, s.data)|
    && s.disk == Apply(s.base, CommitWrites(c.lay, s.base, s.job, s.data)[..Index(phase, |s.job|)])
    && if phase.Copying? || phase.Heading? || s.job == [] then
         && BeforeHeader(c, s)
         && (phase.Copying? ==> phase.tail < |s.job|)
         && (phase.Heading? ==> s.job != []) && (s.job == [] ==> phase.Finishing?)
       else AfterHeader(c, s, phase)
  }

  /** Process p is running commit() and is where CommitOk says. */
  predicate CommitterOk(c: Config, s: State, p: nat) {
    p < |s.procs| && s.procs[p].Committing? && CommitOk(c, s, s.procs[p].phase)
  }

  predicate RecoverOk(c: Config, s: State, t: nat) {
    && LogOk(c.lay, s.base) && |s.base| == |c.disk| && s.lh == Blocks(s.base[c.lay.start])
    && t <= |s.lh| && s.pinned == map[] && s.current == []
    && s.disk == Apply(s.base, RecoveryWrites(c.lay, s.base)[..t])
    && SameHome(c.lay, Recovered(c.lay, s.base), Whole(c, s))
  }

  // ------------------------------------------------------------- safe now

  lemma OpenSafe(c: Config, s: State)
    requires OpenOk(c, s)
    ensures Safe(c, s)
  {
    hide Whole, BuffersShow;
    RecoveredIs(c.lay, s.disk);
  }

  lemma CommitSafe(c: Config, s: State, phase: Phase)
    requires CommitOk(c, s, phase)
    ensures Safe(c, s)
  {
    hide Whole, Newest, CommitWrites, Recovered, Count, Apply, EncodeHeader;
    CrashInCommit(c.lay, s.base, s.job, s.data, Index(phase, |s.job|));
  }

  lemma RecoverSafe(c: Config, s: State, t: nat)
    requires RecoverOk(c, s, t)
    ensures Safe(c, s)
  {
    hide Whole, Recovered, Count, Apply, EncodeHeader;
    CrashInRecovery(c.lay, s.base, t);
  }

  // ------------------------------------------------------------ log_write

  lemma WritesSnoc(recs: seq<Rec>, r: Rec)
    ensures Writes(recs + [r]) == Writes(recs) + [Write(r.blk, r.data)]
  {
  }

  lemma RecordOpen(c: Config, s: State, p: nat)
    requires OpenOk(c, s) && Enabled(c, s, Record(p)) && Home(c, s.procs[p].hold.blk)
    ensures OpenOk(c, Next(c, s, Record(p)))
  {
    hide Whole, Count, Writes, Apply;
    var t := Next(c, s, Record(p));
    var r := Rec(s.procs[p].op, s.procs[p].hold.blk, s.procs[p].hold.data);
    WritesSnoc(s.current, r);
    ApplySnoc(Whole(c, s), Writes(s.current), Write(r.blk, r.data));
    NamesAbsorb(s.lh, r.blk);
    assert Whole(c, t) == Whole(c, s) by { SameWhole(c, s, t); }
    assert BuffersShow(c, t);
  }

  lemma SameWhole(c: Config, s: State, t: State)
    requires s.committed == t.committed
    ensures Whole(c, s) == Whole(c, t)
  {
  }

  // --------------------------------------------------------------- commit

  lemma HeldIsGather(pinned: map<nat, Block>, blocks: seq<Word>)
    requires pinned.Keys == Names(blocks)
    ensures forall i :: 0 <= i < |blocks| ==> blocks[i] in pinned
    ensures Held(pinned, blocks) == Gather(pinned, blocks)
  {
    assert forall i :: 0 <= i < |blocks| ==> blocks[i] in Names(blocks);
  }

  lemma EndCommits(c: Config, s: State, p: nat)
    requires OpenOk(c, s) && Enabled(c, s, End(p)) && s.outstanding == 1 && !CommitStops(s)
    requires |s.lh| <= LOGSIZE && |s.lh| < c.lay.size
    ensures CommitterOk(c, Next(c, s, End(p)), p)
  {
    hide Whole, Count, Apply, EncodeHeader, Writes, NewValue;
    var t := Next(c, s, End(p));
    assert Whole(c, t) == Whole(c, s) by { SameWhole(c, s, t); }
    HeldIsGather(s.pinned, s.lh);
    assert Loggable(c.lay, s.disk, s.lh, t.data);
    forall b | 0 <= b < |c.disk| && !InLog(c.lay, b)
      ensures Newest(c, s)[b] == NewValue(s.disk, s.lh, t.data, b)
    {
      NewValueIsView(s.disk, s.pinned, s.lh, b);
      assert View(s.disk, s.pinned, b) == Newest(c, s)[b];
    }
    assert IsUpdated(c.lay, t.base, t.job, t.data, Newest(c, t));
    assert CommitWrites(c.lay, t.base, t.job, t.data)[..0] == [];
    ApplyNone(t.base);
  }

  lemma ApplyNone(d: Disk)
    ensures Apply(d, []) == d
  {
  }

  /** One more write of a list is one more block put on the disk. */
  lemma PrefixStep(d: Disk, ws: seq<Write>, k: nat)
    requires k < |ws|
    ensures Apply(d, ws[..k + 1]) == Put(Apply(d, ws[..k]), ws[k])
  {
    assert ws[..k + 1] == ws[..k] + [ws[k]];
    ApplySnoc(d, ws[..k], ws[k]);
  }

  /** Write number k of a commit, by phase. */
  lemma CommitWriteAt(lay: Layout, d: Disk, blocks: seq<Word>, data: seq<Block>, t: nat)
    requires Loggable(lay, d, blocks, data) && t < |blocks|
    ensures var ws, n := CommitWrites(lay, d, blocks, data), |blocks|;
            && |ws| == 2 * n + 2
            && ws[t] == Write(lay.start + 1 + t, data[t])
            && ws[n] == Write(lay.start, EncodeHeader(d[lay.start], blocks))
            && ws[n + 1 + t] == Write(blocks[t], data[t])
            && ws[2 * n + 1] == Write(lay.start, EncodeHeader(EncodeHeader(d[lay.start], blocks), []))
  {
    hide EncodeHeader;
  }

  lemma CopyStep(c: Config, s: State, p: nat)
    requires Enabled(c, s, CommitWrite(p)) && CommitterOk(c, s, p) && s.procs[p].phase.Copying?
    ensures CommitterOk(c, Next(c, s, CommitWrite(p)), p)
  {
    hide Whole, Newest, Count, Apply, EncodeHeader, Put, CommitWrites, Gather, Loggable, Names;
    var k, t := s.procs[p].phase.tail, Next(c, s, CommitWrite(p));
    var ws := CommitWrites(c.lay, s.base, s.job, s.data);
    assert Whole(c, t) == Whole(c, s) && Newest(c, t) == Newest(c, s) by { SameNewest(c, s, t); }
    HeldIsGather(s.pinned, s.job);
    CommitWriteAt(c.lay, s.base, s.job, s.data, k);
    PrefixStep(s.base, ws, k);
  }

  lemma SameNewest(c: Config, s: State, t: State)
    requires s.committed == t.committed && s.current == t.current
    ensures Whole(c, s) == Whole(c, t) && Newest(c, s) == Newest(c, t)
  {
  }

  lemma HeadStep(c: Config, s: State, p: nat)
    requires Enabled(c, s, CommitWrite(p)) && CommitterOk(c, s, p) && s.procs[p].phase.Heading?
    ensures CommitterOk(c, Next(c, s, CommitWrite(p)), p)
  {
    hide Whole, Newest, Count, Apply, EncodeHeader, Put, CommitWrites;
    var t := Next(c, s, CommitWrite(p));
    var n := |s.job|;
    var ws := CommitWrites(c.lay, s.base, s.job, s.data);
    assert Whole(c, t) == Newest(c, s) by { GroupJoins(c, s, t); }
    CommitWriteAt(c.lay, s.base, s.job, s.data, 0);
    BeforeCommitPoint(c.lay, s.base, s.job, s.data, n);
    PrefixStep(s.base, ws, n);
    assert s.job[..0] == [];
    assert Names(s.job) - Names([]) == Names(s.job);
  }

  /** The header write turns the open group into a committed one. */
  lemma GroupJoins(c: Config, s: State, t: State)
    requires t.committed == s.committed + [s.current]
    ensures Whole(c, t) == Newest(c, s)
  {
    assert t.committed[..|s.committed|] == s.committed;
  }

  /** The block that installing slot k puts on the disk. */
  lemma InstallPut(lay: Layout, base: Disk, blocks: seq<Word>, data: seq<Block>, k: nat)
    requires Loggable(lay, base, blocks, data) && k < |blocks|
    ensures var ws, n := CommitWrites(lay, base, blocks, data), |blocks|;
            && |ws| == 2 * n + 2
            && var d := Apply(base, ws[..n + 1 + k]);
               && d[lay.start + 1 + k] == data[k]
               && Apply(base, ws[..n + 2 + k]) == Put(d, Write(blocks[k], data[k]))
  {
    hide Count, Apply, EncodeHeader, Put, CommitWrites;
    CommitWriteAt(lay, base, blocks, data, k);
    CommitThenInstalls(lay, base, blocks, data, |blocks| + 1 + k);
    InstallsStayCommitted(lay, base, blocks, data, k);
    PrefixStep(base, CommitWrites(lay, base, blocks, data), |blocks| + 1 + k);
  }

  lemma UnpinOne(pinned: map<nat, Block>, blocks: seq<Word>, k: nat)
    requires k < |blocks| && pinned.Keys == Names(blocks) - Names(blocks[..k])
    ensures (pinned - {blocks[k]}).Keys == Names(blocks) - Names(blocks[..k + 1])
    ensures k + 1 == |blocks| ==> pinned - {blocks[k]} == map[]
  {
    NamesSnoc(blocks, k);
    if k + 1 == |blocks| {
      assert blocks[..k + 1] == blocks;
      assert (pinned - {blocks[k]}).Keys == {};
    }
  }

  lemma InstallStep(c: Config, s: State, p: nat)
    requires Enabled(c, s, CommitWrite(p)) && CommitterOk(c, s, p) && s.procs[p].phase.Installing?
    ensures CommitterOk(c, Next(c, s, CommitWrite(p)), p)
  {
    hide Whole, Newest, Count, Apply, EncodeHeader, Put, CommitWrites, Names;
    var t := Next(c, s, CommitWrite(p));
    assert Whole(c, t) == Whole(c, s) by { SameWhole(c, s, t); }
    InstallPut(c.lay, s.base, s.job, s.data, s.procs[p].phase.tail);
    UnpinOne(s.pinned, s.job, s.procs[p].phase.tail);
  }

  lemma ClearPut(lay: Layout, base: Disk, blocks: seq<Word>, data: seq<Block>)
    requires Loggable(lay, base, blocks, data) && 0 < |blocks|
    ensures var ws, n := CommitWrites(lay, base, blocks, data), |blocks|;
            && |ws| == 2 * n + 2
            && var d := Apply(base, ws[..2 * n + 1]);
               Apply(base, ws[..2 * n + 2]) == Put(d, Write(lay.start, EncodeHeader(d[lay.start], [])))
  {
    hide Count, Apply, EncodeHeader, Put, CommitWrites;
    CommitWriteAt(lay, base, blocks, data, 0);
    CommitThenInstalls(lay, base, blocks, data, 2 * |blocks| + 1);
    InstallsStayCommitted(lay, base, blocks, data, |blocks|);
    PrefixStep(base, CommitWrites(lay, base, blocks, data), 2 * |blocks| + 1);
  }

  lemma ClearStep(c: Config, s: State, p: nat)
    requires Enabled(c, s, CommitWrite(p)) && CommitterOk(c, s, p) && s.procs[p].phase.Clearing?
    ensures CommitterOk(c, Next(c, s, CommitWrite(p)), p)
  {
    hide Whole, Newest, Count, Apply, EncodeHeader, Put, CommitWrites;
    var t := Next(c, s, CommitWrite(p));
    assert Whole(c, t) == Whole(c, s) by { SameWhole(c, s, t); }
    ClearPut(c.lay, s.base, s.job, s.data);
  }

  lemma FinishOpens(c: Config, s: State, p: nat)
    requires Enabled(c, s, Finish(p)) && CommitterOk(c, s, p)
    ensures OpenOk(c, Next(c, s, Finish(p))) && Next(c, s, Finish(p)).current == []
  {
    hide Whole, Newest, Count, Apply, EncodeHeader, CommitWrites;
    var t := Next(c, s, Finish(p));
    var ws := CommitWrites(c.lay, s.base, s.job, s.data);
    assert Whole(c, t) == Whole(c, s) == Newest(c, t) by {
      SameWhole(c, s, t);
      ClosedNewest(c, t);
    }
    NoCommitWrites(c.lay, s.base, s.job, s.data);
    assert ws[..|ws|] == ws;
    CommitDone(c.lay, s.base, s.job, s.data);
    assert s.job == [] ==> s.pinned.Keys == {};
  }

  lemma NoCommitWrites(lay: Layout, d: Disk, blocks: seq<Word>, data: seq<Block>)
    requires Loggable(lay, d, blocks, data)
    ensures |CommitWrites(lay, d, blocks, data)| == if blocks == [] then 0 else 2 * |blocks| + 2
  {
    hide EncodeHeader;
  }

  lemma ClosedNewest(c: Config, s: State)
    requires s.current == []
    ensures Newest(c, s) == Whole(c, s)
  {
  }

  // ---------------------------------------------------- crash and recovery

  lemma CrashRecovers(c: Config, s: State)
    requires Safe(c, s) && Enabled(c, s, Crash) && |s.disk| == |c.disk|
    ensures RecoverOk(c, Next(c, s, Crash), 0)
  {
    hide Whole, Count, Recovered, EncodeHeader;
    var t := Next(c, s, Crash);
    assert Whole(c, t) == Whole(c, s) by { SameWhole(c, s, t); }
    assert RecoveryWrites(c.lay, s.disk)[..0] == [];
  }

  lemma RecoverStep(c: Config, s: State)
    requires s.mode.Recovering? && Enabled(c, s, RecoverWrite) && RecoverOk(c, s, s.mode.tail) && s.mode.tail < |s.lh|
    ensures RecoverOk(c, Next(c, s, RecoverWrite), s.mode.tail + 1)
  {
    hide Whole, Count, Recovered, EncodeHeader, Apply, Put;
    var k, t := s.mode.tail, Next(c, s, RecoverWrite);
    var ws := RecoveryWrites(c.lay, s.base);
    assert Whole(c, t) == Whole(c, s) by { SameWhole(c, s, t); }
    assert ws[..k] == Installs(s.lh, LoggedData(c.lay, s.base))[..k];
    LogSurvivesInstalls(c.lay, s.base, k);
    assert LoggedData(c.lay, s.disk)[k] == s.disk[c.lay.start + 1 + k];
    PrefixStep(s.base, ws, k);
  }

  lemma RecoverOpens(c: Config, s: State)
    requires s.mode.Recovering? && Enabled(c, s, RecoverWrite) && RecoverOk(c, s, s.mode.tail) && s.mode.tail == |s.lh|
    ensures OpenOk(c, Next(c, s, RecoverWrite))
  {
    hide Whole, Newest, Count, EncodeHeader, Apply, Put;
    var k, t := s.mode.tail, Next(c, s, RecoverWrite);
    var ws := RecoveryWrites(c.lay, s.base);
    assert Whole(c, t) == Whole(c, s) == Newest(c, t) by {
      SameWhole(c, s, t);
      ClosedNewest(c, t);
    }
    assert ws[..k] == Installs(s.lh, LoggedData(c.lay, s.base))[..k];
    LogSurvivesInstalls(c.lay, s.base, k);
    PrefixStep(s.base, ws, k);
    assert ws[..k + 1] == ws;
    RecoveredIs(c.lay, s.base);
  }
}
