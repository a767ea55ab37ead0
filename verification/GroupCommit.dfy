/**
 begin_op / log_write / end_op / commit / crash / recovery (kern/log.c) as
 interleaved steps of many processes. One step is one critical section of
 log.lock, one unlocked test, or one block write reaching the disk.
 */
module GroupCommit {
  import opened Bytes
  import opened LogSpec
  import opened Log

  /** One log_write of operation op. */
  datatype Rec = Rec(op: nat, blk: Word, data: Block)

  /** The buffer an operation has locked and changed but not yet recorded. */
  datatype Hold =
    | Nothing
    | Modified(blk: Word, data: Block)
    | Checked(blk: Word, data: Block)  // past log_write's panic tests, before its acquire

  /** The next block write of commit(). */
  datatype Phase = Copying(tail: nat) | Heading | Installing(tail: nat) | Clearing | Finishing

  datatype Proc =
    | Outside
    | Asleep                                        // in begin_op, sleeping on the log
    | InOp(op: nat, logged: set<Word>, hold: Hold)  // between begin_op and end_op
    | Committing(phase: Phase)                      // in end_op, running commit()

  datatype Mode = Up | Recovering(tail: nat) | Halted

  /** What became of an operation: still in the open group, committed with group g, or lost in a crash. */
  datatype Fate = Pending | Durable(group: nat) | Lost

  datatype Config = Config(lay: Layout, disk: Disk, nproc: nat)

  datatype State = State(
    disk: Disk,
    mode: Mode,
    pinned: map<nat, Block>,
    lh: seq<Word>,
    outstanding: nat,
    committing: bool,
    procs: seq<Proc>,
    // history, read by no step
    committed: seq<seq<Rec>>,    // the groups whose header write reached the disk
    current: seq<Rec>,           // the open group
    fate: seq<Fate>,             // of every operation ever begun
    issued: seq<seq<Rec>>,       // every log_write each of them made
    base: Disk,                  // the disk when the running commit or recovery began
    job: seq<Word>,              // the header slots and buffers the running commit writes
    data: seq<Block>
  )

  predicate Home(c: Config, b: Word) {
    b < |c.disk| && !InLog(c.lay, b)
  }

  predicate ConfigOk(c: Config) {
    Fits(c.lay, c.disk) && Count(c.disk[c.lay.start]) == 0
  }

  function Start(c: Config): State {
    State(c.disk, Up, map[], [], 0, false, seq(c.nproc, _ => Outside), [], [], [], [], c.disk, [], [])
  }

  datatype Step =
    | Begin(p: nat)                        // begin_op finds room
    | Wait(p: nat)                         // begin_op sleeps
    | Take(p: nat, blk: Word, data: Block) // bread and modify a buffer
    | Check(p: nat)                        // log_write's unlocked tests
    | Record(p: nat)                       // log_write's critical section, then brelse
    | End(p: nat)                          // end_op's first critical section
    | CommitWrite(p: nat)                  // one block write of commit()
    | Finish(p: nat)                       // end_op's second critical section
    | Crash                                // power loss, then reboot up to read_head
    | RecoverWrite                         // one block write of recover_from_log()

  /** begin_op's two reasons to sleep. */
  predicate MustWait(s: State) {
    s.committing || |s.lh| + (s.outstanding + 1) * MAXOPBLOCKS > LOGSIZE
  }

  /**
   This end_op would commit, but every buffer is pinned by a logged block: the first
   bread of write_log finds none for its log block.
   */
  predicate CommitStops(s: State) {
    s.outstanding == 1 && |s.lh| >= Bcache.NBUF
  }

  function IsIn(s: State, p: nat): bool {
    s.mode.Up? && p < |s.procs| && s.procs[p].InOp?
  }

  predicate Enabled(c: Config, s: State, step: Step) {
    match step
    case Begin(p) => s.mode.Up? && p < |s.procs| && (s.procs[p].Outside? || s.procs[p].Asleep?) && !MustWait(s)
    case Wait(p) => s.mode.Up? && p < |s.procs| && s.procs[p].Outside? && MustWait(s)
    case Take(p, b, data) =>
      && IsIn(s, p) && s.procs[p].hold.Nothing? && Home(c, b)
      && |s.procs[p].logged + {b}| <= MAXOPBLOCKS  // an operation logs at most MAXOPBLOCKS distinct blocks
      && forall q :: 0 <= q < |s.procs| && s.procs[q].InOp? && !s.procs[q].hold.Nothing? ==> s.procs[q].hold.blk != b
    case Check(p) => IsIn(s, p) && s.procs[p].hold.Modified?
    case Record(p) => IsIn(s, p) && s.procs[p].hold.Checked?
    case End(p) => IsIn(s, p) && s.procs[p].hold.Nothing? && s.outstanding > 0
    case CommitWrite(p) =>
      && s.mode.Up? && p < |s.procs| && s.procs[p].Committing?
      && Fits(c.lay, s.disk) && |s.lh| <= LOGSIZE && PhaseInRange(c, s, s.procs[p].phase)
    case Finish(p) => s.mode.Up? && p < |s.procs| && s.procs[p] == Committing(Finishing)
    case Crash => LogOk(c.lay, s.disk)
    case RecoverWrite =>
      && s.mode.Recovering? && Fits(c.lay, s.disk) && s.mode.tail <= |s.lh| <= LOGSIZE
      && c.lay.start + 1 + |s.lh| <= |s.disk|
  }

  predicate PhaseInRange(c: Config, s: State, phase: Phase) {
    match phase
    case Copying(t) => t < |s.lh| && s.lh[t] < |s.disk|
    case Heading => true
    case Installing(t) => t < |s.lh| && c.lay.start + 1 + t < |s.disk|
    case Clearing => true
    case Finishing => false
  }

  /** wakeup(&_log): every sleeper tests again. */
  function WakeAll(procs: seq<Proc>): (r: seq<Proc>)
    ensures |r| == |procs|
    ensures forall p :: 0 <= p < |procs| ==> r[p] == if procs[p].Asleep? then Outside else procs[p]
  {
    seq(|procs|, p requires 0 <= p < |procs| => if procs[p].Asleep? then Outside else procs[p])
  }

  function Next(c: Config, s: State, step: Step): State
    requires Enabled(c, s, step)
  {
    match step
    case Begin(p) =>
      s.(outstanding := s.outstanding + 1, procs := s.procs[p := InOp(|s.fate|, {}, Nothing)],
         fate := s.fate + [Pending], issued := s.issued + [[]])
    case Wait(p) => s.(procs := s.procs[p := Asleep])
    case Take(p, b, data) => s.(procs := s.procs[p := s.procs[p].(hold := Modified(b, data))])
    case Check(p) =>
      if TooBig(c.lay, |s.lh|) || s.outstanding < 1 then s.(mode := Halted)
      else s.(procs := s.procs[p := s.procs[p].(hold := Checked(s.procs[p].hold.blk, s.procs[p].hold.data))])
    case Record(p) => DoRecord(s, p)
    case End(p) =>
      if CommitStops(s) then s.(mode := Halted)
      else if s.outstanding == 1 then
        s.(outstanding := 0, committing := true, base := s.disk, job := s.lh,
           data := Held(s.pinned, s.lh),
           procs := s.procs[p := Committing(if s.lh == [] then Finishing else Copying(0))])
      else
        s.(outstanding := s.outstanding - 1, procs := WakeAll(s.procs[p := Outside]))
    case CommitWrite(p) => DoCommitWrite(c, s, p)
    case Finish(p) => s.(committing := false, procs := WakeAll(s.procs[p := Outside]))
    case Crash =>
      s.(mode := Recovering(0), pinned := map[], lh := Blocks(s.disk[c.lay.start]), outstanding := 0,
         committing := false, procs := seq(|s.procs|, _ => Outside), current := [], base := s.disk,
         fate := Settle(s.fate, Lost))
    case RecoverWrite => DoRecoverWrite(c, s)
  }

  /** The open group's operations all meet the same end. */
  function Settle(fate: seq<Fate>, end: Fate): (r: seq<Fate>)
    ensures |r| == |fate|
    ensures forall o :: 0 <= o < |fate| ==> r[o] == if fate[o].Pending? then end else fate[o]
  {
    seq(|fate|, o requires 0 <= o < |fate| => if fate[o].Pending? then end else fate[o])
  }

  /** The pinned buffers in slot order; total, so that a step needs no invariant to be defined. */
  function Held(pinned: map<nat, Block>, blocks: seq<Word>): (data: seq<Block>)
    ensures |data| == |blocks|
  {
    seq(|blocks|, i requires 0 <= i < |blocks| =>
      if blocks[i] in pinned then pinned[blocks[i]] else Block(Zeros(512)))
  }

  function DoRecord(s: State, p: nat): State
    requires p < |s.procs| && s.procs[p].InOp? && s.procs[p].hold.Checked?
  {
    var q := s.procs[p];
    var r := Rec(q.op, q.hold.blk, q.hold.data);
    s.(lh := Absorb(s.lh, r.blk), pinned := s.pinned[r.blk as nat := r.data],
       procs := s.procs[p := InOp(q.op, q.logged + {r.blk}, Nothing)],
       current := s.current + [r],
       issued := if q.op < |s.issued| then s.issued[q.op := s.issued[q.op] + [r]] else s.issued)
  }

  function DoCommitWrite(c: Config, s: State, p: nat): State
    requires Enabled(c, s, CommitWrite(p))
  {
    var n := |s.lh|;
    match s.procs[p].phase
    case Copying(t) =>
      s.(disk := Put(s.disk, Write(c.lay.start + 1 + t, View(s.disk, s.pinned, s.lh[t]))),
         procs := s.procs[p := Committing(if t + 1 < n then Copying(t + 1) else Heading)])
    case Heading =>
      s.(disk := Put(s.disk, Write(c.lay.start, EncodeHeader(s.disk[c.lay.start], s.lh))),
         procs := s.procs[p := Committing(Installing(0))],
         committed := s.committed + [s.current], current := [],
         fate := Settle(s.fate, Durable(|s.committed|)))
    case Installing(t) =>
      s.(disk := Put(s.disk, Write(s.lh[t], s.disk[c.lay.start + 1 + t])), pinned := s.pinned - {s.lh[t] as nat},
         procs := s.procs[p := Committing(if t + 1 < n then Installing(t + 1) else Clearing)])
    case Clearing =>
      s.(disk := Put(s.disk, Write(c.lay.start, EncodeHeader(s.disk[c.lay.start], []))), lh := [],
         procs := s.procs[p := Committing(Finishing)])
    case Finishing => s
  }

  function DoRecoverWrite(c: Config, s: State): State
    requires Enabled(c, s, RecoverWrite)
  {
    var t := s.mode.tail;
    if t < |s.lh| then
      s.(disk := Put(s.disk, Write(s.lh[t], s.disk[c.lay.start + 1 + t])), mode := Recovering(t + 1))
    else
      s.(disk := Put(s.disk, Write(c.lay.start, EncodeHeader(s.disk[c.lay.start], []))), lh := [], mode := Up)
  }
}
