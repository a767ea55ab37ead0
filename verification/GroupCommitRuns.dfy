/**
 The group-commit machine over whole runs: the main results about kern/log.c's
 concurrent use.
 */
module GroupCommitRuns {
  import opened LogSpec
  import opened Log
  import opened GroupCommit
  import opened GroupCommitProof
  import opened GroupCommitDisk
  import opened Basics

  // -------------------------------------------------------------- history

  predicate Absent(groups: seq<seq<Rec>>, o: nat) {
    forall g :: 0 <= g < |groups| ==> Proj(groups[g], o) == []
  }

  /** All of operation o's log_writes are in its one group, or none survive. */
  predicate FateOk(s: State, o: nat)
    requires o < |s.fate| == |s.issued|
  {
    match s.fate[o]
    case Pending => Proj(s.current, o) == s.issued[o] && Absent(s.committed, o)
    case Durable(i) =>
      && i < |s.committed| && Proj(s.committed[i], o) == s.issued[o] && Proj(s.current, o) == []
      && forall g :: 0 <= g < |s.committed| && g != i ==> Proj(s.committed[g], o) == []
    case Lost => Proj(s.current, o) == [] && Absent(s.committed, o)
  }

  predicate OpsBelow(recs: seq<Rec>, n: nat) {
    forall i :: 0 <= i < |recs| ==> recs[i].op < n
  }

  predicate HistOk(s: State) {
    && |s.issued| == |s.fate|
    && OpsBelow(s.current, |s.fate|)
    && (forall g :: 0 <= g < |s.committed| ==> OpsBelow(s.committed[g], |s.fate|))
    && forall o :: 0 <= o < |s.fate| ==> FateOk(s, o)
  }

  lemma {:induction false} ProjNone(recs: seq<Rec>, o: nat)
    requires OpsBelow(recs, o)
    ensures Proj(recs, o) == []
  {
    if recs != [] {
      ProjNone(recs[..|recs| - 1], o);
    }
  }

  lemma ProjSnoc(recs: seq<Rec>, r: Rec, o: nat)
    ensures Proj(recs + [r], o) == Proj(recs, o) + if r.op == o then [r] else []
  {
    assert (recs + [r])[..|recs|] == recs;
  }

  lemma BeginHist(c: Config, s: State, p: nat)
    requires HistOk(s) && Enabled(c, s, Begin(p))
    ensures HistOk(Next(c, s, Begin(p)))
  {
    hide Proj;
    var t, n := Next(c, s, Begin(p)), |s.fate|;
    ProjNone(s.current, n);
    forall g | 0 <= g < |s.committed|
      ensures Proj(s.committed[g], n) == []
    {
      ProjNone(s.committed[g], n);
    }
    forall o | 0 <= o < |t.fate|
      ensures FateOk(t, o)
    {
      assert o < n ==> FateOk(s, o);
    }
  }

  lemma RecordHist(c: Config, s: State, p: nat)
    requires HistOk(s) && Enabled(c, s, Record(p)) && OpOk(c, s, s.procs[p])
    ensures HistOk(Next(c, s, Record(p)))
  {
    hide Proj;
    var t, q := Next(c, s, Record(p)), s.procs[p];
    var r := Rec(q.op, q.hold.blk, q.hold.data);
    forall o | 0 <= o < |t.fate|
      ensures FateOk(t, o)
    {
      assert FateOk(s, o);
      ProjSnoc(s.current, r, o);
    }
  }

  lemma HeadHist(c: Config, s: State, p: nat)
    requires HistOk(s) && Enabled(c, s, CommitWrite(p)) && s.procs[p].phase.Heading?
    ensures HistOk(Next(c, s, CommitWrite(p)))
  {
    hide EncodeHeader, Put;
    var t := Next(c, s, CommitWrite(p));
    forall o | 0 <= o < |t.fate|
      ensures FateOk(t, o)
    {
      assert FateOk(s, o);
    }
  }

  lemma CrashHist(c: Config, s: State)
    requires HistOk(s) && Enabled(c, s, Crash)
    ensures HistOk(Next(c, s, Crash))
  {
    hide Count, Blocks;
    var t := Next(c, s, Crash);
    forall o | 0 <= o < |t.fate|
      ensures FateOk(t, o)
    {
      assert FateOk(s, o);
    }
  }

  lemma SameHist(s: State, t: State)
    requires HistOk(s) && t.fate == s.fate && t.issued == s.issued && t.committed == s.committed
    requires t.current == s.current
    ensures HistOk(t)
  {
    hide Proj;
    forall o | 0 <= o < |t.fate|
      ensures FateOk(t, o)
    {
      assert FateOk(s, o);
    }
  }

  // ------------------------------------------- what needs no room in the log

  /** The header names home blocks, each once. */
  predicate HeaderOk(c: Config, s: State) {
    Distinct(s.lh) && forall i :: 0 <= i < |s.lh| ==> Home(c, s.lh[i])
  }

  /** Processes, header and history: kept by every step, whatever the log's size. */
  predicate Orderly(c: Config, s: State) {
    && |s.procs| == c.nproc && HistOk(s)
    && match s.mode
       case Up => ProcsOk(c, s) && HeaderOk(c, s)
       case Recovering(_) => s.outstanding == 0 && !s.committing && forall p :: 0 <= p < |s.procs| ==>
           s.procs[p].Outside?
       case Halted => true
  }

  lemma StartOrderly(c: Config)
    ensures Orderly(c, Start(c))
  {
    FreshProcs(c, Start(c));
  }

  /** A process inside an operation means no commit is running and something is outstanding. */
  lemma InsideMeansOpen(c: Config, s: State, p: nat)
    requires ProcsOk(c, s) && p < |s.procs| && s.procs[p].InOp?
    ensures !s.committing && s.outstanding > 0 && OpOk(c, s, s.procs[p]) && |s.lh| <= LOGSIZE
  {
    hide Sum;
    SumPart(s.procs, p, IsActive);
    UnspentNat(c, s);
  }

  lemma OnlyCommitter(c: Config, s: State, p: nat, q: nat)
    requires ProcsOk(c, s) && p < |s.procs| && q < |s.procs| && s.procs[p].Committing? && s.procs[q].Committing?
    ensures p == q && s.committing
  {
  }

  lemma OpOrderly(c: Config, s: State, step: Step)
    requires Orderly(c, s) && Enabled(c, s, step)
    requires step.Begin? || step.Wait? || step.Take? || step.Check? || step.Record?
    ensures Orderly(c, Next(c, s, step))
  {
    hide ProcsOk, HistOk;
    if step.Begin? {
      BeginProcs(c, s, step.p);
      BeginHist(c, s, step.p);
    } else if step.Record? {
      InsideMeansOpen(c, s, step.p);
      RecordProcs(c, s, step.p);
      RecordHist(c, s, step.p);
    } else {
      QuietProcs(c, s, step);
      SameHist(s, Next(c, s, step));
    }
  }

  lemma EndOrderly(c: Config, s: State, step: Step)
    requires Orderly(c, s) && Enabled(c, s, step) && (step.End? || step.Finish?)
    ensures Orderly(c, Next(c, s, step))
  {
    hide ProcsOk, HistOk;
    SameHist(s, Next(c, s, step));
    if step.Finish? {
      FinishProcs(c, s, step.p);
    } else if CommitStops(s) {
    } else if s.outstanding == 1 {
      LastEndProcs(c, s, step.p);
    } else {
      EndProcs(c, s, step.p);
    }
  }

  lemma CommitOrderly(c: Config, s: State, p: nat)
    requires Orderly(c, s) && Enabled(c, s, CommitWrite(p))
    ensures Orderly(c, Next(c, s, CommitWrite(p)))
  {
    hide ProcsOk, HistOk, Next;
    CommitProcs(c, s, p);
    CommitShape(c, s, p);
    CommitHist(c, s, p);
  }

  lemma CommitHist(c: Config, s: State, p: nat)
    requires HistOk(s) && Enabled(c, s, CommitWrite(p))
    ensures HistOk(Next(c, s, CommitWrite(p))) && |Next(c, s, CommitWrite(p)).disk| == |s.disk|
  {
    hide HistOk, EncodeHeader;
    if s.procs[p].phase.Heading? {
      HeadHist(c, s, p);
    } else {
      SameHist(s, Next(c, s, CommitWrite(p)));
    }
  }

  lemma RecoverOrderly(c: Config, s: State)
    requires Orderly(c, s) && Enabled(c, s, RecoverWrite)
    ensures Orderly(c, Next(c, s, RecoverWrite))
  {
    hide HistOk, ProcsOk, EncodeHeader;
    var t := Next(c, s, RecoverWrite);
    SameHist(s, t);
    if s.mode.tail >= |s.lh| {
      FreshProcs(c, t);
    }
  }

  lemma CrashOrderly(c: Config, s: State)
    requires Orderly(c, s) && Enabled(c, s, Crash)
    ensures Orderly(c, Next(c, s, Crash))
  {
    hide HistOk, Blocks, Count;
    CrashHist(c, s);
  }

  lemma StepOrderly(c: Config, s: State, step: Step)
    requires Orderly(c, s) && Enabled(c, s, step)
    ensures Orderly(c, Next(c, s, step))
  {
    hide Orderly, Next;
    match step
    case Begin(_) => OpOrderly(c, s, step);
    case Wait(_) => OpOrderly(c, s, step);
    case Take(_, _, _) => OpOrderly(c, s, step);
    case Check(_) => OpOrderly(c, s, step);
    case Record(_) => OpOrderly(c, s, step);
    case End(_) => EndOrderly(c, s, step);
    case Finish(_) => EndOrderly(c, s, step);
    case CommitWrite(p) => CommitOrderly(c, s, p);
    case Crash => CrashOrderly(c, s);
    case RecoverWrite => RecoverOrderly(c, s);
  }

  /** s runs to t by these steps, each enabled when it is taken. */
  ghost predicate Reaches(c: Config, s: State, steps: seq<Step>, t: State)
    decreases |steps|
  {
    if steps == [] then s == t
    else Enabled(c, s, steps[0]) && Reaches(c, Next(c, s, steps[0]), steps[1..], t)
  }

  lemma {:induction false} RunOrderly(c: Config, s: State, steps: seq<Step>, t: State)
    requires Orderly(c, s) && Reaches(c, s, steps, t)
    ensures Orderly(c, t)
    decreases |steps|
  {
    hide Orderly, Next;
    if steps != [] {
      StepOrderly(c, s, steps[0]);
      RunOrderly(c, Next(c, s, steps[0]), steps[1..], t);
    }
  }

  lemma Reached(c: Config, steps: seq<Step>, s: State)
    requires Reaches(c, Start(c), steps, s)
    ensures Orderly(c, s)
  {
    StartOrderly(c);
    RunOrderly(c, Start(c), steps, s);
  }

  /** Each operation is all or nothing: its log_writes are in exactly one committed group, or in none. */
  lemma OperationsAreAtomic(c: Config, steps: seq<Step>, s: State, o: nat)
    requires Reaches(c, Start(c), steps, s) && o < |s.fate|
    ensures |s.issued| == |s.fate|
    ensures || Absent(s.committed, o)
            || exists i :: && 0 <= i < |s.committed| && Proj(s.committed[i], o) == s.issued[o]
                           && forall g :: 0 <= g < |s.committed| && g != i ==> Proj(s.committed[g], o) == []
  {
    hide Proj;
    Reached(c, steps, s);
    assert FateOk(s, o);
  }

  /** A commit never overlaps an operation, so no log_write can land while one runs. */
  lemma CommitsAlone(c: Config, steps: seq<Step>, s: State, p: nat)
    requires Reaches(c, Start(c), steps, s) && s.mode.Up? && s.committing && p < |s.procs|
    ensures s.outstanding == 0 && !s.procs[p].InOp? && !Enabled(c, s, Record(p)) && !Enabled(c, s, Begin(p))
  {
    hide Sum, HistOk;
    Reached(c, steps, s);
    NobodyInside(c, s, p);
  }

  /** A process asleep in begin_op still has to wait; every change that could let it in wakes it. */
  lemma SleeperMustWait(c: Config, steps: seq<Step>, s: State, p: nat)
    requires Reaches(c, Start(c), steps, s) && s.mode.Up? && p < |s.procs| && s.procs[p].Asleep?
    ensures MustWait(s)
  {
    Reached(c, steps, s);
  }

  lemma HeaderBound(c: Config, steps: seq<Step>, s: State)
    requires Reaches(c, Start(c), steps, s) && s.mode.Up?
    ensures |s.lh| <= LOGSIZE
  {
    hide Sum, HistOk;
    Reached(c, steps, s);
    UnspentNat(c, s);
  }

  /**
   Log reservation, in a log of any size: the header never names more than
   LOGSIZE blocks, and a block that is not yet in it always finds a slot below
   LOGSIZE, so in a log of more than LOGSIZE blocks it never meets the panic.
   */
  lemma ReservationHolds(c: Config, steps: seq<Step>, s: State, p: nat)
    requires Reaches(c, Start(c), steps, s) && Enabled(c, s, Check(p))
    ensures |s.lh| <= LOGSIZE
    ensures Next(c, s, Check(p)).mode.Halted? <==> |s.lh| == LOGSIZE || |s.lh| >= c.lay.size - 1
    ensures s.procs[p].hold.blk !in s.lh ==> |s.lh| < LOGSIZE
    ensures LOGSIZE < c.lay.size && s.procs[p].hold.blk !in s.lh ==> Next(c, s, Check(p)).mode.Up?
  {
    hide Sum;
    Reached(c, steps, s);
    InsideMeansOpen(c, s, p);
    if s.procs[p].hold.blk !in s.lh {
      RoomForNew(c, s, p);
    }
  }

  /** A committing end_op stops the machine if and only if NBUF blocks are logged. */
  lemma CommitStopsExactlyWhen(c: Config, steps: seq<Step>, s: State, p: nat)
    requires Reaches(c, Start(c), steps, s) && Enabled(c, s, End(p)) && s.outstanding == 1
    ensures Next(c, s, End(p)).mode.Halted? <==> |s.lh| == Bcache.NBUF
  {
    HeaderBound(c, steps, s);
  }

  /** What stops the machine: log_write's test at its two bounds, or a commit of NBUF blocks. */
  lemma HaltsExactlyWhen(c: Config, steps: seq<Step>, s: State, step: Step)
    requires Reaches(c, Start(c), steps, s) && s.mode.Up? && Enabled(c, s, step)
    ensures Next(c, s, step).mode.Halted? <==>
      || (step.Check? && (|s.lh| == LOGSIZE || |s.lh| >= c.lay.size - 1))
      || (step.End? && s.outstanding == 1 && |s.lh| == Bcache.NBUF)
  {
    hide EncodeHeader, Put, View, Blocks, Count, Settle, Held, Absorb;
    HeaderBound(c, steps, s);
    if step.Check? {
      ReservationHolds(c, steps, s, step.p);
    }
    if step.CommitWrite? {
      CommitShape(c, s, step.p);
    }
  }

  lemma HeaderIsHome(c: Config, steps: seq<Step>, s: State)
    requires Reaches(c, Start(c), steps, s) && s.mode.Up?
    ensures HeaderOk(c, s)
  {
    Reached(c, steps, s);
  }

  // ------------------------------------------------------------ invariant

  /** The disk between commits, and while one runs. */
  predicate UpOk(c: Config, s: State) {
    && (s.committing ==> forall p :: 0 <= p < |s.procs| && s.procs[p].Committing? ==> CommitterOk(c, s, p))
    && (!s.committing ==> OpenOk(c, s) && (s.outstanding == 0 ==> s.current == []))
  }

  predicate Inv(c: Config, s: State) {
    && Orderly(c, s) && |s.disk| == |c.disk|
    && match s.mode
       case Up => UpOk(c, s)
       case Recovering(t) => RecoverOk(c, s, t)
       case Halted => Safe(c, s)
  }

  /** If this step begins a commit, the header's blocks have their places in the log region. */
  predicate CommitFits(c: Config, s: State, step: Step) {
    step.End? && s.outstanding == 1 && !CommitStops(s) ==> |s.lh| < c.lay.size
  }

  lemma StartInv(c: Config)
    requires ConfigOk(c)
    ensures Inv(c, Start(c))
  {
    hide Orderly;
    StartOrderly(c);
    assert OpenOk(c, Start(c)) by { hide Count; }
  }

  lemma InvSafe(c: Config, s: State)
    requires Inv(c, s)
    ensures Safe(c, s)
  {
    hide ProcsOk, Safe, OpenOk, RecoverOk, CommitOk, HistOk;
    match s.mode
    case Up =>
      if s.committing {
        assert exists p :: 0 <= p < |s.procs| && s.procs[p].Committing? by { Committer(c, s); }
        var p :| 0 <= p < |s.procs| && s.procs[p].Committing?;
        CommitSafe(c, s, s.procs[p].phase);
      } else {
        OpenSafe(c, s);
      }
    case Recovering(t) => RecoverSafe(c, s, t);
    case Halted =>
  }

  lemma Committer(c: Config, s: State)
    requires ProcsOk(c, s) && s.committing
    ensures exists p :: 0 <= p < |s.procs| && s.procs[p].Committing?
  {
  }

  /** Steps that touch neither disk, buffers, header nor history. */
  lemma QuietOpen(c: Config, s: State, t: State)
    requires OpenOk(c, s)
    requires t.disk == s.disk && t.pinned == s.pinned && t.lh == s.lh && t.committed == s.committed
    requires t.current == s.current
    ensures OpenOk(c, t)
  {
    hide Count, Whole, Apply, Names, Writes;
    SameNewest(c, s, t);
  }

  lemma QuietCommit(c: Config, s: State, t: State, p: nat)
    requires CommitterOk(c, s, p) && p < |t.procs| && t.procs[p] == s.procs[p]
    requires t.disk == s.disk && t.pinned == s.pinned && t.lh == s.lh && t.committed == s.committed
    requires t.current == s.current
    requires t.base == s.base && t.job == s.job && t.data == s.data
    ensures CommitterOk(c, t, p)
  {
    hide Whole, Newest, Apply, Names, CommitWrites, IsUpdated, SameHome, Count;
    SameNewest(c, s, t);
  }

  lemma OpInv(c: Config, s: State, step: Step)
    requires Inv(c, s) && Enabled(c, s, step) && (step.Begin? || step.Take? || step.Check?)
    ensures Inv(c, Next(c, s, step))
  {
    hide ProcsOk, OpenOk, HistOk, Safe;
    var t := Next(c, s, step);
    OpOrderly(c, s, step);
    if !step.Begin? {
      InsideMeansOpen(c, s, step.p);
    }
    QuietOpen(c, s, t);
    OpenSafe(c, t);
  }

  lemma WaitInv(c: Config, s: State, p: nat)
    requires Inv(c, s) && Enabled(c, s, Wait(p))
    ensures Inv(c, Next(c, s, Wait(p)))
  {
    hide Orderly, OpenOk, CommitterOk;
    var t := Next(c, s, Wait(p));
    OpOrderly(c, s, Wait(p));
    if s.committing {
      forall q | 0 <= q < |t.procs| && t.procs[q].Committing?
        ensures CommitterOk(c, t, q)
      {
        QuietCommit(c, s, t, q);
      }
    } else {
      QuietOpen(c, s, t);
    }
  }

  lemma RecordInv(c: Config, s: State, p: nat)
    requires Inv(c, s) && Enabled(c, s, Record(p))
    ensures Inv(c, Next(c, s, Record(p)))
  {
    hide ProcsOk, OpenOk, HistOk;
    OpOrderly(c, s, Record(p));
    InsideMeansOpen(c, s, p);
    RecordOpen(c, s, p);
  }

  lemma EndInv(c: Config, s: State, p: nat)
    requires Inv(c, s) && Enabled(c, s, End(p)) && CommitFits(c, s, End(p))
    ensures Inv(c, Next(c, s, End(p)))
  {
    hide ProcsOk, OpenOk, HistOk, CommitterOk;
    var t := Next(c, s, End(p));
    EndOrderly(c, s, End(p));
    InsideMeansOpen(c, s, p);
    if CommitStops(s) {
      QuietOpen(c, s, t);
      OpenSafe(c, t);
    } else if s.outstanding == 1 {
      EndCommits(c, s, p);
      forall q | 0 <= q < |t.procs| && t.procs[q].Committing?
        ensures q == p
      {
        OnlyCommitter(c, t, p, q);
      }
    } else {
      QuietOpen(c, s, t);
    }
  }

  lemma CommitInv(c: Config, s: State, p: nat)
    requires Inv(c, s) && Enabled(c, s, CommitWrite(p))
    ensures Inv(c, Next(c, s, CommitWrite(p)))
  {
    hide ProcsOk, OpenOk, HistOk, CommitterOk, Next;
    var t := Next(c, s, CommitWrite(p));
    OnlyCommitter(c, s, p, p);
    CommitOrderly(c, s, p);
    CommitShape(c, s, p);
    CommitHist(c, s, p);
    match s.procs[p].phase {
      case Copying(_) => CopyStep(c, s, p);
      case Heading => HeadStep(c, s, p);
      case Installing(_) => InstallStep(c, s, p);
      case Clearing => ClearStep(c, s, p);
      case Finishing =>
    }
    forall q | 0 <= q < |t.procs| && t.procs[q].Committing?
      ensures q == p
    {
      OnlyCommitter(c, t, p, q);
    }
  }

  lemma FinishInv(c: Config, s: State, p: nat)
    requires Inv(c, s) && Enabled(c, s, Finish(p))
    ensures Inv(c, Next(c, s, Finish(p)))
  {
    hide ProcsOk, OpenOk, HistOk, CommitterOk;
    EndOrderly(c, s, Finish(p));
    OnlyCommitter(c, s, p, p);
    FinishOpens(c, s, p);
  }

  lemma CrashInv(c: Config, s: State)
    requires Inv(c, s) && Enabled(c, s, Crash)
    ensures Inv(c, Next(c, s, Crash))
  {
    hide Safe, Orderly, RecoverOk, Blocks, Count;
    InvSafe(c, s);
    CrashOrderly(c, s);
    CrashRecovers(c, s);
  }

  lemma RecoverInv(c: Config, s: State)
    requires Inv(c, s) && Enabled(c, s, RecoverWrite)
    ensures Inv(c, Next(c, s, RecoverWrite))
  {
    hide HistOk, RecoverOk, OpenOk, ProcsOk, EncodeHeader;
    var t := Next(c, s, RecoverWrite);
    assert |t.disk| == |s.disk|;
    RecoverOrderly(c, s);
    RecoverBound(c, s);
    if s.mode.tail < |s.lh| {
      RecoverStep(c, s);
    } else {
      RecoverOpens(c, s);
    }
  }

  lemma RecoverBound(c: Config, s: State)
    requires s.mode.Recovering? && RecoverOk(c, s, s.mode.tail)
    ensures s.mode.tail <= |s.lh| && s.current == []
  {
  }

  // ------------------------------------------------------------------ runs

  lemma StepInv(c: Config, s: State, step: Step)
    requires Inv(c, s) && Enabled(c, s, step) && CommitFits(c, s, step)
    ensures Inv(c, Next(c, s, step))
  {
    hide Inv, Next;
    match step
    case Begin(_) => OpInv(c, s, step);
    case Wait(p) => WaitInv(c, s, p);
    case Take(_, _, _) => OpInv(c, s, step);
    case Check(_) => OpInv(c, s, step);
    case Record(p) => RecordInv(c, s, p);
    case End(p) => EndInv(c, s, p);
    case CommitWrite(p) => CommitInv(c, s, p);
    case Finish(p) => FinishInv(c, s, p);
    case Crash => CrashInv(c, s);
    case RecoverWrite => RecoverInv(c, s);
  }

  /** A run in which no commit begins with more blocks than the log region holds. */
  ghost predicate Contained(c: Config, s: State, steps: seq<Step>)
    decreases |steps|
  {
    steps == [] ||
    (Enabled(c, s, steps[0]) && CommitFits(c, s, steps[0]) && Contained(c, Next(c, s, steps[0]), steps[1..]))
  }

  lemma {:induction false} RunInv(c: Config, s: State, steps: seq<Step>, t: State)
    requires Inv(c, s) && Reaches(c, s, steps, t) && Contained(c, s, steps)
    ensures Inv(c, t)
    decreases |steps|
  {
    hide Inv, Next;
    if steps != [] {
      StepInv(c, s, steps[0]);
      RunInv(c, Next(c, s, steps[0]), steps[1..], t);
    }
  }

  /**
   Whatever the processes did and wherever the machine stopped, before or during
   a commit or a recovery, a crash is survivable: recovery leaves the home blocks
   exactly as the committed groups, applied whole and in order, leave them.
   */
  lemma RecoversToWholeGroups(c: Config, steps: seq<Step>, s: State)
    requires ConfigOk(c) && Reaches(c, Start(c), steps, s) && Contained(c, Start(c), steps)
    ensures Enabled(c, s, Crash)
    ensures SameHome(c.lay, Recovered(c.lay, s.disk), Replay(c.disk, s.committed))
  {
    hide Recovered, Count, Orderly;
    StartInv(c);
    RunInv(c, Start(c), steps, s);
    InvSafe(c, s);
  }

  /** Once nothing is outstanding and no commit runs, every finished operation is durable or empty. */
  lemma QuiescentMeansDurable(c: Config, steps: seq<Step>, s: State, o: nat)
    requires ConfigOk(c) && Reaches(c, Start(c), steps, s) && Contained(c, Start(c), steps)
    requires s.mode.Up? && !s.committing && s.outstanding == 0 && o < |s.fate|
    ensures |s.issued| == |s.fate| && (s.fate[o].Pending? ==> s.issued[o] == [])
    ensures SameHome(c.lay, s.disk, Replay(c.disk, s.committed))
  {
    StartInv(c);
    RunInv(c, Start(c), steps, s);
    assert FateOk(s, o);
  }

  // ----------------------------------------------- when commits always fit

  /** A log that has a place for every block a commit can hold; mkfs makes one of LOGSIZE blocks, which is as many. */
  predicate Roomy(c: Config) {
    ConfigOk(c) && Bcache.NBUF <= c.lay.size
  }

  lemma {:induction false} RoomyFrom(c: Config, s: State, steps: seq<Step>, t: State)
    requires Bcache.NBUF <= c.lay.size && Orderly(c, s) && Reaches(c, s, steps, t)
    ensures Contained(c, s, steps)
    decreases |steps|
  {
    hide HistOk, ProcsOk, Next;
    if steps != [] {
      if steps[0].End? {
        InsideMeansOpen(c, s, steps[0].p);
      }
      StepOrderly(c, s, steps[0]);
      RoomyFrom(c, Next(c, s, steps[0]), steps[1..], t);
    }
  }

  /** In a log of at least NBUF blocks every commit of every run fits. */
  lemma RoomyContains(c: Config, steps: seq<Step>, s: State)
    requires Roomy(c) && Reaches(c, Start(c), steps, s)
    ensures Contained(c, Start(c), steps)
  {
    StartOrderly(c);
    RoomyFrom(c, Start(c), steps, s);
  }

  predicate IsChecked(s: State, p: nat) {
    p < |s.procs| && s.procs[p].InOp? && s.procs[p].hold.Checked?
  }

  /** log_write's unlocked test is taken only while nobody else is past it. */
  ghost predicate AloneInTest(s: State, step: Step) {
    step.Check? ==> forall q :: !IsChecked(s, q)
  }

  ghost predicate Serial(c: Config, s: State, steps: seq<Step>)
    decreases |steps|
  {
    steps == [] ||
    (Enabled(c, s, steps[0]) && AloneInTest(s, steps[0]) && Serial(c, Next(c, s, steps[0]), steps[1..]))
  }

  /** The header fits, and so does the one block that passed the test. */
  ghost predicate FitsNow(c: Config, s: State) {
    && (s.mode.Up? ==> |s.lh| < c.lay.size)
    && (forall p, q :: IsChecked(s, p) && IsChecked(s, q) ==> p == q)
    && forall p :: IsChecked(s, p) && !s.mode.Halted? ==> s.mode.Up? && |s.lh| + 1 < c.lay.size
  }

  /** Only Check puts a process past the test, and Record takes it out again. */
  lemma WhoIsChecked(c: Config, s: State, step: Step, p: nat)
    requires Enabled(c, s, step) && IsChecked(Next(c, s, step), p)
    ensures IsChecked(s, p) || step == Check(p)
    ensures step != Record(p) && !step.Crash?
  {
    hide EncodeHeader, Put, View, Blocks, Count, Settle, Held, Absorb;
    if step.CommitWrite? {
      CommitShape(c, s, step.p);
    }
  }

  /** How a step changes the header. */
  lemma HeaderNext(c: Config, s: State, step: Step)
    requires Enabled(c, s, step) && Next(c, s, step).mode.Up?
    ensures var t := Next(c, s, step);
            && |t.lh| <= |s.lh| + (if step.Record? then 1 else 0)
            && (step.Check? ==> |s.lh| + 1 < c.lay.size && t.lh == s.lh)
            && (!s.mode.Up? ==> t.lh == [])
  {
    hide EncodeHeader, Put, View, Blocks, Count, Settle, Held;
    if step.CommitWrite? {
      CommitShape(c, s, step.p);
    }
  }

  lemma FitsNext(c: Config, s: State, step: Step)
    requires c.lay.size > 0 && FitsNow(c, s) && Enabled(c, s, step) && AloneInTest(s, step)
    ensures FitsNow(c, Next(c, s, step))
  {
    hide Next;
    var t := Next(c, s, step);
    if t.mode.Up? {
      HeaderNext(c, s, step);
      if step.Record? {
        assert IsChecked(s, step.p);
      }
    }
    forall p | IsChecked(t, p)
      ensures IsChecked(s, p) || step == Check(p)
      ensures step != Record(p) && !step.Crash?
      ensures !t.mode.Halted? ==> t.mode.Up? && |t.lh| + 1 < c.lay.size
    {
      WhoIsChecked(c, s, step, p);
      ModeNext(c, s, step);
    }
  }

  lemma ModeNext(c: Config, s: State, step: Step)
    requires Enabled(c, s, step) && !step.Crash?
    ensures var t := Next(c, s, step);
            && (s.mode.Up? ==> t.mode.Up? || t.mode.Halted?)
            && (!s.mode.Up? ==> s.mode.Recovering? && t.procs == s.procs)
  {
    hide EncodeHeader, Put, View, Blocks, Count, Settle, Held, Absorb;
  }

  lemma {:induction false} SerialFrom(c: Config, s: State, steps: seq<Step>)
    requires c.lay.size > 0 && FitsNow(c, s) && Serial(c, s, steps)
    ensures Contained(c, s, steps)
    decreases |steps|
  {
    hide Next;
    if steps != [] {
      FitsNext(c, s, steps[0]);
      SerialFrom(c, Next(c, s, steps[0]), steps[1..]);
    }
  }

  /**
   In a log of any size, a run in which no two processes are between log_write's
   test and its critical section at once keeps every commit inside the region.
   */
  lemma SerialContains(c: Config, steps: seq<Step>)
    requires ConfigOk(c) && Serial(c, Start(c), steps)
    ensures Contained(c, Start(c), steps)
  {
    SerialFrom(c, Start(c), steps);
  }

  lemma OneProcess(c: Config, s: State, step: Step)
    requires |s.procs| <= 1 && Enabled(c, s, step)
    ensures AloneInTest(s, step) && |Next(c, s, step).procs| <= 1
  {
    if step.CommitWrite? {
      CommitShape(c, s, step.p);
    }
  }

  /** One process alone is such a run. */
  lemma {:induction false} SingleIsSerial(c: Config, s: State, steps: seq<Step>, t: State)
    requires |s.procs| <= 1 && Reaches(c, s, steps, t)
    ensures Serial(c, s, steps)
    decreases |steps|
  {
    hide Next, AloneInTest;
    if steps != [] {
      OneProcess(c, s, steps[0]);
      SingleIsSerial(c, Next(c, s, steps[0]), steps[1..], t);
    }
  }
}
