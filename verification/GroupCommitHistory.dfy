/**
 What the processes did, from the list of steps alone: which block and data each
 log_write had, and which of them each committed group holds. The main results about
 kern/log.c's concurrent use are stated with this history.
 */
module GroupCommitHistory {
  import opened Bytes
  import opened LogSpec
  import opened Log
  import opened GroupCommit
  import opened GroupCommitProof
  import opened GroupCommitRuns
  import opened Basics

  /** The buffer a process changed last, and what it put there. */
  datatype Taken = Taken(blk: Word, data: Block)

  datatype History = History(
    ops: map<nat, nat>,        // the operation each process began last
    takes: map<nat, Taken>,    // what each process took last
    issued: seq<seq<Rec>>,     // the log_writes of each operation, in order
    open: seq<Rec>,            // those of the open group
    groups: seq<seq<Rec>>,     // those of each committed group
    fate: seq<Fate>,
    writes: nat                // block writes of the commit under way
  )

  const NONE: History := History(map[], map[], [], [], [], [], 0)

  /** The blocks that log_writes were made of. */
  function BlocksOf(recs: seq<Rec>): set<nat> {
    if recs == [] then {} else BlocksOf(recs[..|recs| - 1]) + {recs[|recs| - 1].blk as nat}
  }

  /** Operations still pending come to this end. */
  function Ended(fate: seq<Fate>, end: Fate): (r: seq<Fate>)
    ensures |r| == |fate| && forall o :: 0 <= o < |fate| ==> r[o] == if fate[o].Pending? then end else fate[o]
  {
    if fate == [] then []
    else Ended(fate[..|fate| - 1], end) + [if fate[|fate| - 1].Pending? then end else fate[|fate| - 1]]
  }

  /**
   One more step. A log_write is of the block that its process took last, with the data
   put there; a commit writes one copy of every block of the group, and then the header
   that makes the group durable.
   */
  function Note(h: History, step: Step): History {
    match step
    case Begin(p) =>
      h.(ops := h.ops[p := |h.issued|], issued := h.issued + [[]], fate := h.fate + [Pending])
    case Take(p, b, data) => h.(takes := h.takes[p := Taken(b, data)])
    case Record(p) =>
      if p in h.ops && p in h.takes && h.ops[p] < |h.issued| then
        var o := h.ops[p];
        var r := Rec(o, h.takes[p].blk, h.takes[p].data);
        h.(open := h.open + [r], issued := h.issued[o := h.issued[o] + [r]])
      else h
    case End(_) => h.(writes := 0)
    case CommitWrite(_) =>
      if h.open != [] && h.writes == |BlocksOf(h.open)| then
        h.(groups := h.groups + [h.open], open := [], fate := Ended(h.fate, Durable(|h.groups|)),
           writes := h.writes + 1)
      else h.(writes := h.writes + 1)
    case Crash => h.(open := [], fate := Ended(h.fate, Lost))
    case _ => h
  }

  function Told(h: History, steps: seq<Step>): History
    decreases |steps|
  {
    if steps == [] then h else Told(Note(h, steps[0]), steps[1..])
  }

  /** What the steps of a run say happened. */
  function Story(steps: seq<Step>): History {
    Told(NONE, steps)
  }

  // ----------------------------------------------- the machine remembers it

  /** What process p holds is what it took last, for the operation it began last. */
  predicate HoldsTaken(s: State, h: History, p: nat)
    requires p < |s.procs|
  {
    s.procs[p].InOp? ==>
      && p in h.ops && s.procs[p].op == h.ops[p] < |h.issued|
      && (!s.procs[p].hold.Nothing? ==>
            p in h.takes && s.procs[p].hold.blk == h.takes[p].blk && s.procs[p].hold.data == h.takes[p].data)
  }

  /** The commit's place in its list of writes. */
  predicate AtWrite(s: State, h: History, phase: Phase) {
    match phase
    case Copying(t) => h.writes == t < |s.lh| && SameBlocks(s, h)
    case Heading => h.writes == |s.lh| > 0 && SameBlocks(s, h)
    case Finishing => h.open == [] && s.lh == []
    case _ => h.open == []
  }

  /** The header names the blocks of the open group. */
  predicate SameBlocks(s: State, h: History) {
    Names(s.lh) == BlocksOf(h.open)
  }

  predicate SameHistory(s: State, h: History) {
    s.issued == h.issued && s.current == h.open && s.committed == h.groups && s.fate == h.fate && |h.fate| == |h.issued|
  }

  /** While the system is up. */
  predicate UpRecalls(s: State, h: History) {
    && (forall p :: 0 <= p < |s.procs| ==> HoldsTaken(s, h, p))
    && (!s.committing ==> SameBlocks(s, h))
    && forall p :: 0 <= p < |s.procs| && s.procs[p].Committing? ==> AtWrite(s, h, s.procs[p].phase)
  }

  predicate Recalls(s: State, h: History) {
    && SameHistory(s, h) && (s.mode.Up? ==> UpRecalls(s, h)) && (s.mode.Recovering? ==> h.open == [])
  }

  lemma BlocksSnoc(recs: seq<Rec>, r: Rec)
    ensures BlocksOf(recs + [r]) == BlocksOf(recs) + {r.blk as nat}
  {
    assert (recs + [r])[..|recs|] == recs;
  }

  lemma NoBlocks(recs: seq<Rec>)
    ensures BlocksOf(recs) == {} <==> recs == []
    ensures Names([]) == {}
  {
  }

  /** As many slots as blocks. */
  lemma {:induction false} SlotsCount(lh: seq<Word>)
    requires Distinct(lh)
    ensures |Names(lh)| == |lh|
  {
    if lh != [] {
      var m := |lh| - 1;
      SlotsCount(lh[..m]);
      NamesSnoc(lh, m);
      assert lh[..m + 1] == lh;
      assert lh[m] as nat !in Names(lh[..m]);
    } else {
      NoBlocks([]);
    }
  }

  lemma EndedIs(fate: seq<Fate>, end: Fate)
    ensures Ended(fate, end) == Settle(fate, end)
  {
  }

  lemma StartRecalls(c: Config)
    ensures Recalls(Start(c), NONE)
  {
    NoBlocks([]);
  }

  lemma BeginRecalls(c: Config, s: State, h: History, step: Step)
    requires Orderly(c, s) && Recalls(s, h) && Enabled(c, s, step) && (step.Begin? || step.Wait?)
    ensures Recalls(Next(c, s, step), Note(h, step))
  {
    hide HistOk, BlocksOf, Names, Sum, MustWait;
    var t, g := Next(c, s, step), Note(h, step);
    forall p | 0 <= p < |t.procs|
      ensures HoldsTaken(t, g, p)
      ensures t.procs[p].Committing? ==> AtWrite(t, g, t.procs[p].phase)
    {
      assert HoldsTaken(s, h, p);
      assert s.procs[p].Committing? ==> AtWrite(s, h, s.procs[p].phase);
    }
  }

  lemma TakeRecalls(c: Config, s: State, h: History, step: Step)
    requires Orderly(c, s) && Recalls(s, h) && Enabled(c, s, step) && (step.Take? || step.Check?)
    ensures Recalls(Next(c, s, step), Note(h, step))
  {
    hide HistOk, BlocksOf, Names, Sum;
    var t, g := Next(c, s, step), Note(h, step);
    InsideMeansOpen(c, s, step.p);
    if t.mode.Up? {
      forall p | 0 <= p < |t.procs|
        ensures HoldsTaken(t, g, p) && !t.procs[p].Committing?
      {
        assert HoldsTaken(s, h, p);
      }
    }
  }

  lemma RecordRecalls(c: Config, s: State, h: History, p: nat)
    requires Orderly(c, s) && Recalls(s, h) && Enabled(c, s, Record(p))
    ensures Recalls(Next(c, s, Record(p)), Note(h, Record(p)))
  {
    hide HistOk, BlocksOf, Names, Sum, Absorb, RoomOk, NoStaleSleeper, OpOk;
    InsideMeansOpen(c, s, p);
    assert HoldsTaken(s, h, p);
    var t, g := Next(c, s, Record(p)), Note(h, Record(p));
    BlocksSnoc(h.open, Rec(h.ops[p], h.takes[p].blk, h.takes[p].data));
    NamesAbsorb(s.lh, h.takes[p].blk);
    forall q | 0 <= q < |t.procs|
      ensures HoldsTaken(t, g, q) && !t.procs[q].Committing?
    {
      assert HoldsTaken(s, h, q);
    }
  }

  lemma EndRecalls(c: Config, s: State, h: History, step: Step)
    requires Orderly(c, s) && Recalls(s, h) && Enabled(c, s, step) && (step.End? || step.Finish?)
    ensures Recalls(Next(c, s, step), Note(h, step))
  {
    hide HistOk, BlocksOf, Names, Sum;
    var t, g := Next(c, s, step), Note(h, step);
    NoBlocks(h.open);
    if step.End? {
      InsideMeansOpen(c, s, step.p);
    } else {
      assert AtWrite(s, h, s.procs[step.p].phase);
      OnlyCommitter(c, s, step.p, step.p);
    }
    if t.mode.Up? {
      forall p | 0 <= p < |t.procs|
        ensures HoldsTaken(t, g, p)
        ensures t.procs[p].Committing? ==> AtWrite(t, g, t.procs[p].phase)
      {
        assert HoldsTaken(s, h, p);
        if step.Finish? && s.procs[p].Committing? {
          OnlyCommitter(c, s, step.p, p);
        }
      }
    }
  }

  /** The committer's own place after one of its writes. */
  lemma WriteRecalls(c: Config, s: State, h: History, p: nat)
    requires Orderly(c, s) && Recalls(s, h) && Enabled(c, s, CommitWrite(p))
    ensures var t, g := Next(c, s, CommitWrite(p)), Note(h, CommitWrite(p));
            SameHistory(t, g) && t.mode == s.mode && t.committing == s.committing && |t.procs| == |s.procs|
            && t.procs[p].Committing? && AtWrite(t, g, t.procs[p].phase)
            && g.ops == h.ops && g.takes == h.takes && g.issued == h.issued
            && forall q :: 0 <= q < |s.procs| && q != p ==> t.procs[q] == s.procs[q]
  {
    hide HistOk, BlocksOf, Names, EncodeHeader, Put, View, RoomOk, NoStaleSleeper, OpOk, HoldsTaken, Settle, Ended;
    hide PhaseInRange, Fits;
    assert AtWrite(s, h, s.procs[p].phase);
    NoBlocks(h.open);
    SlotsCount(s.lh);
    EndedIs(h.fate, Durable(|h.groups|));
    OnlyCommitter(c, s, p, p);
  }

  lemma CommitRecalls(c: Config, s: State, h: History, p: nat)
    requires Orderly(c, s) && Recalls(s, h) && Enabled(c, s, CommitWrite(p))
    ensures Recalls(Next(c, s, CommitWrite(p)), Note(h, CommitWrite(p)))
  {
    hide ProcsOk, HistOk, Next, Note, AtWrite, SameHistory, SameBlocks;
    var t, g := Next(c, s, CommitWrite(p)), Note(h, CommitWrite(p));
    WriteRecalls(c, s, h, p);
    OnlyCommitter(c, s, p, p);
    forall q | 0 <= q < |t.procs|
      ensures HoldsTaken(t, g, q)
      ensures t.procs[q].Committing? ==> AtWrite(t, g, t.procs[q].phase)
    {
      assert HoldsTaken(s, h, q);
      if s.procs[q].Committing? {
        OnlyCommitter(c, s, p, q);
      }
    }
  }

  lemma CrashRecalls(c: Config, s: State, h: History, step: Step)
    requires Orderly(c, s) && Recalls(s, h) && Enabled(c, s, step) && (step.Crash? || step.RecoverWrite?)
    ensures Recalls(Next(c, s, step), Note(h, step))
  {
    hide HistOk, BlocksOf, Names, Sum, EncodeHeader, Put, Blocks, Count;
    EndedIs(h.fate, Lost);
    NoBlocks([]);
  }

  lemma StepRecalls(c: Config, s: State, h: History, step: Step)
    requires Orderly(c, s) && Recalls(s, h) && Enabled(c, s, step)
    ensures Recalls(Next(c, s, step), Note(h, step))
  {
    hide Orderly, Recalls, Next, Note;
    match step
    case Begin(_) => BeginRecalls(c, s, h, step);
    case Wait(_) => BeginRecalls(c, s, h, step);
    case Take(_, _, _) => TakeRecalls(c, s, h, step);
    case Check(_) => TakeRecalls(c, s, h, step);
    case Record(p) => RecordRecalls(c, s, h, p);
    case End(_) => EndRecalls(c, s, h, step);
    case Finish(_) => EndRecalls(c, s, h, step);
    case CommitWrite(p) => CommitRecalls(c, s, h, p);
    case Crash => CrashRecalls(c, s, h, step);
    case RecoverWrite => CrashRecalls(c, s, h, step);
  }

  lemma {:induction false} RunRecalls(c: Config, s: State, h: History, steps: seq<Step>, t: State)
    requires Orderly(c, s) && Recalls(s, h) && Reaches(c, s, steps, t)
    ensures Recalls(t, Told(h, steps))
    decreases |steps|
  {
    hide Orderly, Recalls, Next, Note;
    if steps != [] {
      StepRecalls(c, s, h, steps[0]);
      StepOrderly(c, s, steps[0]);
      RunRecalls(c, Next(c, s, steps[0]), Note(h, steps[0]), steps[1..], t);
    }
  }

  /** In every run, whatever the log, the machine's record is what the steps say. */
  lemma RecordIsStory(c: Config, steps: seq<Step>, s: State)
    requires Reaches(c, Start(c), steps, s)
    ensures SameHistory(s, Story(steps)) && (s.mode.Up? ==> UpRecalls(s, Story(steps)))
  {
    hide Reaches, Told;
    StartRecalls(c);
    StartOrderly(c);
    RunRecalls(c, Start(c), NONE, steps, s);
  }

  // --------------------------------------------------------- main results

  /**
   Whatever the processes did and wherever the machine stopped, before or during
   a commit or a recovery, a crash is survivable: recovery leaves the home blocks
   exactly as the log_writes of the committed groups leave them, applied whole and in
   order, each with the data its process had put into the buffer.
   */
  lemma RecoversToStory(c: Config, steps: seq<Step>, s: State)
    requires ConfigOk(c) && Reaches(c, Start(c), steps, s) && Contained(c, Start(c), steps)
    ensures Enabled(c, s, Crash)
    ensures SameHome(c.lay, Recovered(c.lay, s.disk), Replay(c.disk, Story(steps).groups))
  {
    hide Reaches, Story, Recovered;
    RecordIsStory(c, steps, s);
    RecoversToWholeGroups(c, steps, s);
  }

  /** While no commit runs, a reader of any home block sees the last log_write of it, committed or not. */
  lemma ReadersSeeLastWrite(c: Config, steps: seq<Step>, s: State, b: nat)
    requires ConfigOk(c) && Reaches(c, Start(c), steps, s) && Contained(c, Start(c), steps)
    requires s.mode.Up? && !s.committing && b < |c.disk| && !InLog(c.lay, b)
    ensures b < |s.disk|
    ensures View(s.disk, s.pinned, b) ==
            Apply(Replay(c.disk, Story(steps).groups), Writes(Story(steps).open))[b]
  {
    hide Reaches, Story, Contained, Orderly, Apply, Replay;
    RecordIsStory(c, steps, s);
    StartInv(c);
    RunInv(c, Start(c), steps, s);
  }

  /** log_write makes its block show the data that was put there, also if the block is logged already. */
  lemma RecordShows(c: Config, steps: seq<Step>, s: State, p: nat, b: nat)
    requires Reaches(c, Start(c), steps, s) && Enabled(c, s, Record(p)) && b < |s.disk|
    ensures p in Story(steps).takes
    ensures var t := Next(c, s, Record(p));
            b < |t.disk| && View(t.disk, t.pinned, b) ==
            if b == Story(steps).takes[p].blk then Story(steps).takes[p].data else View(s.disk, s.pinned, b)
  {
    hide Reaches, Story;
    RecordIsStory(c, steps, s);
    assert HoldsTaken(s, Story(steps), p);
  }

  /** Operation o's log_writes are whole in the one group it came to, or nowhere. */
  predicate Fulfilled(h: History, o: nat)
    requires o < |h.fate| == |h.issued|
  {
    match h.fate[o]
    case Pending => Proj(h.open, o) == h.issued[o] && Absent(h.groups, o)
    case Durable(i) =>
      && i < |h.groups| && Proj(h.groups[i], o) == h.issued[o] && Proj(h.open, o) == []
      && forall g :: 0 <= g < |h.groups| && g != i ==> Proj(h.groups[g], o) == []
    case Lost => Proj(h.open, o) == [] && Absent(h.groups, o)
  }

  /** Each operation is all or nothing: what it logged is in exactly one committed group, or in none. */
  lemma StoryIsAtomic(c: Config, steps: seq<Step>, s: State, o: nat)
    requires Reaches(c, Start(c), steps, s) && o < |Story(steps).issued|
    ensures |Story(steps).fate| == |Story(steps).issued| && Fulfilled(Story(steps), o)
  {
    hide Reaches, Story, Proj;
    RecordIsStory(c, steps, s);
    GroupCommitRuns.Reached(c, steps, s);
    assert FateOk(s, o);
  }

  /** Once nothing is outstanding and no commit runs, the home blocks hold every log_write no crash cut off. */
  lemma QuietMeansDurable(c: Config, steps: seq<Step>, s: State, o: nat)
    requires ConfigOk(c) && Reaches(c, Start(c), steps, s) && Contained(c, Start(c), steps)
    requires s.mode.Up? && !s.committing && s.outstanding == 0 && o < |Story(steps).issued|
    ensures |Story(steps).fate| == |Story(steps).issued|
    ensures Story(steps).fate[o].Pending? ==> Story(steps).issued[o] == []
    ensures SameHome(c.lay, s.disk, Replay(c.disk, Story(steps).groups))
  {
    hide Reaches, Story;
    RecordIsStory(c, steps, s);
    QuiescentMeansDurable(c, steps, s, o);
  }
}
