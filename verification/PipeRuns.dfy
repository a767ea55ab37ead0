/**
 pipewrite, piperead and pipeclose (kern/pipe.c) by any number of processes, step by
 step: one byte, one test, one sleep or one wakeup at a time, under the pipe's lock.
 */
module PipeRuns {
  import opened Bytes
  import opened Pipe

  /** Where a process is: spinning for the lock, holding it, asleep, or past piperead's wait. */
  datatype At = Spin | Holds | Asleep | Copies

  datatype Proc =
    | Idle
    | Writer(buf: seq<Byte>, i: nat, at: At)
    | Reader(n: nat, got: seq<Byte>, at: At)

  /** lock is the holder, or -1; sent and recv are all bytes stored and taken so far. */
  datatype State = State(ring: Ring, readopen: bool, writeopen: bool, lock: int, procs: seq<Proc>, sent: seq<Byte>,
                         recv: seq<Byte>)

  datatype Step =
    | BeginWrite(p: nat, buf: seq<Byte>)
    | BeginRead(p: nat, n: nat)
    | Lock(p: nat)
    | Store(p: nat)
    | Block(p: nat)        // full: wakeup(&nread), sleep(&nwrite)
    | Broken(p: nat)       // full and nobody reads: -1
    | KilledWrite(p: nat)  // full and killed: -1
    | EndWrite(p: nat)     // wakeup(&nread), n
    | WaitData(p: nat)     // empty: sleep(&nread)
    | KilledRead(p: nat)   // empty and killed: -1
    | StartCopy(p: nat)
    | Copy(p: nat)
    | EndRead(p: nat)      // wakeup(&nwrite), the bytes got
    | CloseWrite           // the last writing descriptor goes: wakeup(&nread)
    | CloseRead            // the last reading descriptor goes: wakeup(&nwrite)
    | Spurious(p: nat)     // a signal ends a sleep

  const FREE: int := -1

  predicate IsWriter(s: State, p: nat, at: At) {
    p < |s.procs| && s.procs[p].Writer? && s.procs[p].at == at && s.procs[p].i <= |s.procs[p].buf|
  }

  predicate IsReader(s: State, p: nat, at: At) {
    p < |s.procs| && s.procs[p].Reader? && s.procs[p].at == at
  }

  predicate Blocked(s: State, p: nat) {
    IsWriter(s, p, Holds) && s.procs[p].i < |s.procs[p].buf| && IsFull(s.ring)
  }

  predicate Enabled(s: State, step: Step) {
    match step
    case BeginWrite(p, buf) => p < |s.procs| && s.procs[p].Idle? && s.writeopen
    case BeginRead(p, n) => p < |s.procs| && s.procs[p].Idle? && s.readopen
    case Lock(p) => s.lock == FREE && (IsWriter(s, p, Spin) || IsReader(s, p, Spin))
    case Store(p) => IsWriter(s, p, Holds) && s.procs[p].i < |s.procs[p].buf| && !IsFull(s.ring)
        && |s.ring.data| == PIPESIZE
    case Block(p) => Blocked(s, p) && s.readopen
    case Broken(p) => Blocked(s, p) && !s.readopen
    case KilledWrite(p) => Blocked(s, p)
    case EndWrite(p) => IsWriter(s, p, Holds) && s.procs[p].i == |s.procs[p].buf|
    case WaitData(p) => IsReader(s, p, Holds) && IsEmpty(s.ring) && s.writeopen
    case KilledRead(p) => IsReader(s, p, Holds) && IsEmpty(s.ring) && s.writeopen
    case StartCopy(p) => IsReader(s, p, Holds) && !(IsEmpty(s.ring) && s.writeopen)
    case Copy(p) => IsReader(s, p, Copies) && |s.procs[p].got| < s.procs[p].n && !IsEmpty(s.ring)
        && |s.ring.data| == PIPESIZE
    case EndRead(p) => IsReader(s, p, Copies) && (|s.procs[p].got| >= s.procs[p].n || IsEmpty(s.ring))
    case CloseWrite => s.lock == FREE && s.writeopen && forall p :: 0 <= p < |s.procs| ==> !s.procs[p].Writer?
    case CloseRead => s.lock == FREE && s.readopen && forall p :: 0 <= p < |s.procs| ==> !s.procs[p].Reader?
    case Spurious(p) => IsWriter(s, p, Asleep) || IsReader(s, p, Asleep)
  }

  function To(x: Proc, at: At): Proc {
    match x
    case Idle => Idle
    case Writer(buf, i, _) => Writer(buf, i, at)
    case Reader(n, got, _) => Reader(n, got, at)
  }

  function WokenReader(x: Proc): Proc {
    if x.Reader? && x.at.Asleep? then To(x, Spin) else x
  }

  function WokenWriter(x: Proc): Proc {
    if x.Writer? && x.at.Asleep? then To(x, Spin) else x
  }

  /** wakeup(&p->nread) */
  function WakeReaders(procs: seq<Proc>): (r: seq<Proc>)
    ensures |r| == |procs| && forall i :: 0 <= i < |r| ==> r[i] == WokenReader(procs[i])
  {
    seq(|procs|, i requires 0 <= i < |procs| => WokenReader(procs[i]))
  }

  /** wakeup(&p->nwrite) */
  function WakeWriters(procs: seq<Proc>): (r: seq<Proc>)
    ensures |r| == |procs| && forall i :: 0 <= i < |r| ==> r[i] == WokenWriter(procs[i])
  {
    seq(|procs|, i requires 0 <= i < |procs| => WokenWriter(procs[i]))
  }

  function Next(s: State, step: Step): State
    requires Enabled(s, step)
  {
    match step
    case BeginWrite(p, buf) => s.(procs := s.procs[p := Writer(buf, 0, Spin)])
    case BeginRead(p, n) => s.(procs := s.procs[p := Reader(n, [], Spin)])
    case Lock(p) => s.(lock := p, procs := s.procs[p := To(s.procs[p], Holds)])
    case Store(p) =>
      var x := s.procs[p];
      s.(ring := Put(s.ring, x.buf[x.i]), procs := s.procs[p := x.(i := x.i + 1)], sent := s.sent + [x.buf[x.i]])
    case Block(p) => s.(lock := FREE, procs := WakeReaders(s.procs)[p := To(s.procs[p], Asleep)])
    case Broken(p) => s.(lock := FREE, procs := s.procs[p := Idle])
    case KilledWrite(p) => s.(lock := FREE, procs := s.procs[p := Idle])
    case EndWrite(p) => s.(lock := FREE, procs := WakeReaders(s.procs)[p := Idle])
    case WaitData(p) => s.(lock := FREE, procs := s.procs[p := To(s.procs[p], Asleep)])
    case KilledRead(p) => s.(lock := FREE, procs := s.procs[p := Idle])
    case StartCopy(p) => s.(procs := s.procs[p := To(s.procs[p], Copies)])
    case Copy(p) =>
      var b := s.ring.data[s.ring.nread % PIPESIZE];
      s.(ring := Skip(s.ring), procs := s.procs[p := s.procs[p].(got := s.procs[p].got + [b])], recv := s.recv + [b])
    case EndRead(p) => s.(lock := FREE, procs := WakeWriters(s.procs)[p := Idle])
    case CloseWrite => s.(writeopen := false, procs := WakeReaders(s.procs))
    case CloseRead => s.(readopen := false, procs := WakeWriters(s.procs))
    case Spurious(p) => s.(procs := s.procs[p := To(s.procs[p], Spin)])
  }

  // ----------------------------------------------------------- invariants

  predicate HasLock(x: Proc) {
    !x.Idle? && (x.at.Holds? || x.at.Copies?)
  }

  /** The lock's holder is the process that says so; what a reader has got it got last. */
  predicate ProcOk(s: State, p: nat)
    requires p < |s.procs|
  {
    var x := s.procs[p];
    && (HasLock(x) <==> s.lock == p)
    && (x.Writer? ==> x.i <= |x.buf| && !x.at.Copies? && s.writeopen)
    && (x.Reader? ==> s.readopen && (if x.at.Copies? then Suffix(s.recv, x.got) && |x.got| <= x.n else x.got == []))
  }

  predicate Suffix(s: seq<Byte>, t: seq<Byte>) {
    |t| <= |s| && s[|s| - |t|..] == t
  }

  /** Everything stored has been taken or is still in the ring, in order. */
  ghost predicate DataOk(s: State) {
    && RingOk(s.ring) && s.sent == s.recv + Contents(s.ring)
    && FREE <= s.lock < |s.procs|
    && forall p: nat :: p < |s.procs| ==> ProcOk(s, p)
  }

  lemma SuffixMore(s: seq<Byte>, t: seq<Byte>, b: Byte)
    requires Suffix(s, t)
    ensures Suffix(s + [b], t + [b])
  {
    assert (s + [b])[|s + [b]| - |t + [b]|..] == s[|s| - |t|..] + [b];
  }

  lemma DataStep(s: State, step: Step)
    requires DataOk(s) && Enabled(s, step)
    ensures DataOk(Next(s, step))
  {
    hide RingOk, Contents, IsFull, IsEmpty, Put, Skip, Suffix;
    var t := Next(s, step);
    if step.Store? {
      PutAppends(s.ring, s.procs[step.p].buf[s.procs[step.p].i]);
      Longer(s.recv, Contents(s.ring), s.procs[step.p].buf[s.procs[step.p].i]);
    }
    if step.Copy? {
      SkipDrops(s.ring);
      Shift(s.recv, s.ring.data[s.ring.nread % PIPESIZE], Contents(Skip(s.ring)));
    }
    forall p: nat | p < |t.procs|
      ensures ProcOk(t, p)
    {
      DataProc(s, step, p);
    }
  }

  lemma Longer(a: seq<Byte>, c: seq<Byte>, b: Byte)
    ensures a + c + [b] == a + (c + [b])
  {
  }

  predicate IsBy(step: Step, p: nat) {
    !step.CloseRead? && !step.CloseWrite? && step.p == p
  }

  lemma DataProc(s: State, step: Step, p: nat)
    requires DataOk(s) && Enabled(s, step) && p < |s.procs|
    ensures |Next(s, step).procs| == |s.procs| && ProcOk(Next(s, step), p)
  {
    hide Next, Enabled, DataOk;
    SameProcs(s, step);
    if IsBy(step, p) {
      OwnProc(s, step);
    } else {
      OtherProc(s, step, p);
    }
  }

  lemma OwnProc(s: State, step: Step)
    requires DataOk(s) && Enabled(s, step) && !step.CloseRead? && !step.CloseWrite? && step.p < |s.procs|
    ensures |Next(s, step).procs| == |s.procs| && ProcOk(Next(s, step), step.p)
  {
    hide RingOk, Contents, IsFull, IsEmpty, Put, Skip, Suffix;
    assert ProcOk(s, step.p);
    if step.Copy? {
      SuffixMore(s.recv, s.procs[step.p].got, s.ring.data[s.ring.nread % PIPESIZE]);
    }
    NoSuffix(s.recv);
  }

  lemma OtherProc(s: State, step: Step, p: nat)
    requires DataOk(s) && Enabled(s, step) && p < |s.procs| && !IsBy(step, p)
    ensures |Next(s, step).procs| == |s.procs| && ProcOk(Next(s, step), p)
  {
    hide RingOk, Contents, IsFull, IsEmpty, Put, Skip, Suffix;
    assert ProcOk(s, p);
    if !step.CloseRead? && !step.CloseWrite? {
      assert ProcOk(s, step.p);
    }
  }

  lemma NoSuffix(s: seq<Byte>)
    ensures Suffix(s, [])
  {
  }

  /** A sleeping writer has no room and a reader to wait for; a sleeping reader has no data and a writer to wait for;
      except while the process that will wake them holds the lock. */
  predicate SleepOk(s: State, p: nat)
    requires p < |s.procs| && FREE <= s.lock < |s.procs|
  {
    var x := s.procs[p];
    && (x.Writer? && x.at.Asleep? ==>
        (IsFull(s.ring) && s.readopen) || (s.lock >= 0 && s.procs[s.lock].Reader? && s.procs[s.lock].at.Copies?))
    && (x.Reader? && x.at.Asleep? ==> (IsEmpty(s.ring) && s.writeopen) || (s.lock >= 0 && s.procs[s.lock].Writer?))
  }

  /** If the step is a writer's return because it was killed, no reader is asleep that it should have woken. */
  ghost predicate Harmless(s: State, step: Step) {
    step.KilledWrite? ==> forall p: nat :: !IsReader(s, p, Asleep)
  }

  lemma SleepStep(s: State, step: Step, p: nat)
    requires DataOk(s) && Enabled(s, step) && Harmless(s, step) && p < |s.procs|
    requires forall q: nat :: q < |s.procs| ==> SleepOk(s, q)
    requires DataOk(Next(s, step))
    ensures SleepOk(Next(s, step), p)
  {
    hide RingOk, Contents, Put, Skip, Suffix;
    assert SleepOk(s, p) && ProcOk(s, p);
    if !step.CloseRead? && !step.CloseWrite? {
      assert ProcOk(s, step.p) && SleepOk(s, step.p);
    }
    if s.lock >= 0 {
      assert ProcOk(s, s.lock);
    }
    assert step.KilledWrite? ==> !IsReader(s, p, Asleep);
  }

  /** A killed writer leaves everyone with a reason to sleep if and only if no reader is asleep. */
  lemma KilledWriteStep(s: State, w: nat)
    requires DataOk(s) && Enabled(s, KilledWrite(w)) && forall q: nat :: q < |s.procs| ==> SleepOk(s, q)
    ensures DataOk(Next(s, KilledWrite(w)))
    ensures (forall q: nat :: q < |s.procs| ==> SleepOk(Next(s, KilledWrite(w)), q)) <==> Harmless(s, KilledWrite(w))
  {
    hide RingOk, Contents, Suffix;
    var t := Next(s, KilledWrite(w));
    DataStep(s, KilledWrite(w));
    if Harmless(s, KilledWrite(w)) {
      forall q: nat | q < |s.procs|
        ensures SleepOk(t, q)
      {
        SleepStep(s, KilledWrite(w), q);
      }
    } else {
      var q: nat :| IsReader(s, q, Asleep);
      Strands(s, w, q);
    }
  }

  /** The reader is left asleep on a full pipe. */
  lemma Strands(s: State, w: nat, q: nat)
    requires DataOk(s) && Enabled(s, KilledWrite(w)) && IsReader(s, q, Asleep)
    ensures var t := Next(s, KilledWrite(w));
            t.lock == FREE && IsReader(t, q, Asleep) && !IsEmpty(t.ring) && |t.procs| == |s.procs| && !SleepOk(t, q)
  {
    hide RingOk, Contents, Suffix, ProcOk;
  }

  // ----------------------------------------------------------- whole runs

  ghost predicate Reaches(s: State, steps: seq<Step>, t: State)
    decreases |steps|
  {
    if steps == [] then s == t else Enabled(s, steps[0]) && Reaches(Next(s, steps[0]), steps[1..], t)
  }

  /** pipealloc: both ends open, nothing stored; the counters may start anywhere together. */
  predicate Init(s: State) {
    && |s.ring.data| == PIPESIZE && s.ring.nread == s.ring.nwrite && s.readopen && s.writeopen && s.lock == FREE
    && s.sent == s.recv == [] && forall p :: 0 <= p < |s.procs| ==> s.procs[p].Idle?
  }

  lemma InitOk(s: State)
    requires Init(s)
    ensures DataOk(s) && forall p: nat :: p < |s.procs| ==> SleepOk(s, p)
  {
  }

  lemma {:induction false} DataRun(s: State, steps: seq<Step>, t: State)
    requires DataOk(s) && Reaches(s, steps, t)
    ensures DataOk(t)
    decreases |steps|
  {
    hide DataOk, Enabled, Next;
    if steps != [] {
      DataStep(s, steps[0]);
      DataRun(Next(s, steps[0]), steps[1..], t);
    }
  }

  /** A run in which every killed writer returns while no reader is asleep. */
  ghost predicate HarmlessRun(s: State, steps: seq<Step>)
    decreases |steps|
  {
    steps == [] || (Enabled(s, steps[0]) && Harmless(s, steps[0]) && HarmlessRun(Next(s, steps[0]), steps[1..]))
  }

  lemma {:induction false} SleepRun(s: State, steps: seq<Step>, t: State)
    requires DataOk(s) && Reaches(s, steps, t) && HarmlessRun(s, steps)
    requires forall p: nat :: p < |s.procs| ==> SleepOk(s, p)
    ensures DataOk(t) && forall p: nat :: p < |t.procs| ==> SleepOk(t, p)
    decreases |steps|
  {
    hide ProcOk, SleepOk, Enabled, Next, Contents, Harmless;
    if steps != [] {
      DataStep(s, steps[0]);
      var u := Next(s, steps[0]);
      SameProcs(s, steps[0]);
      forall p: nat | p < |u.procs|
        ensures SleepOk(u, p)
      {
        SleepStep(s, steps[0], p);
      }
      SleepRun(u, steps[1..], t);
    }
  }

  lemma SameProcs(s: State, step: Step)
    requires Enabled(s, step)
    ensures |Next(s, step).procs| == |s.procs|
  {
  }

  /**
   In every run the bytes taken are a prefix of the bytes stored, and the 32-bit counters
   hold their difference, at most 512.
   */
  lemma ReadsArePrefix(s: State, steps: seq<Step>, t: State)
    requires Init(s) && Reaches(s, steps, t)
    ensures t.recv <= t.sent && |t.sent| - |t.recv| == Count(t.ring) <= PIPESIZE
    ensures |t.ring.data| == PIPESIZE && t.sent == t.recv + Contents(t.ring)
  {
    hide Init, Reaches, Enabled, Next, ProcOk;
    InitOk(s);
    DataRun(s, steps, t);
  }

  /** With the lock free, no reader sleeps with data there or the writers gone, and no writer sleeps with room there
      or the readers gone. */
  ghost predicate NoneStuck(s: State) {
    s.lock == FREE ==> forall p: nat ::
      && (IsReader(s, p, Asleep) ==> IsEmpty(s.ring) && s.writeopen)
      && (IsWriter(s, p, Asleep) ==> IsFull(s.ring) && s.readopen)
  }

  lemma NobodyStuck(s: State, steps: seq<Step>, t: State)
    requires Init(s) && Reaches(s, steps, t) && HarmlessRun(s, steps)
    ensures NoneStuck(t)
  {
    hide Init, Reaches, HarmlessRun, DataOk;
    InitOk(s);
    SleepRun(s, steps, t);
    AllHaveReason(t);
  }

  lemma AllHaveReason(s: State)
    requires DataOk(s) && forall p: nat :: p < |s.procs| ==> SleepOk(s, p)
    ensures NoneStuck(s)
  {
    hide RingOk, Contents, ProcOk;
    forall p: nat
      ensures IsReader(s, p, Asleep) && s.lock == FREE ==> IsEmpty(s.ring) && s.writeopen
      ensures IsWriter(s, p, Asleep) && s.lock == FREE ==> IsFull(s.ring) && s.readopen
    {
      assert p < |s.procs| ==> SleepOk(s, p);
    }
  }

  /** In no state of the run is anybody stuck. */
  ghost predicate NeverStuck(s: State, steps: seq<Step>)
    decreases |steps|
  {
    NoneStuck(s) && (steps == [] || (Enabled(s, steps[0]) && NeverStuck(Next(s, steps[0]), steps[1..])))
  }

  lemma {:induction false} NeverStuckFrom(s: State, steps: seq<Step>, t: State)
    requires DataOk(s) && Reaches(s, steps, t) && HarmlessRun(s, steps)
    requires forall p: nat :: p < |s.procs| ==> SleepOk(s, p)
    ensures NeverStuck(s, steps)
    decreases |steps|
  {
    hide DataOk, SleepOk, Enabled, Next, Harmless, NoneStuck;
    AllHaveReason(s);
    if steps != [] {
      var u := Next(s, steps[0]);
      assert [steps[0]][1..] == [];
      assert HarmlessRun(u, []) && Reaches(u, [], u);
      SleepRun(s, [steps[0]], u);
      NeverStuckFrom(u, steps[1..], t);
    }
  }

  lemma {:induction false} StuckSomewhere(s: State, steps: seq<Step>, t: State)
    requires DataOk(s) && Reaches(s, steps, t) && NeverStuck(s, steps)
    ensures HarmlessRun(s, steps)
    decreases |steps|
  {
    hide DataOk, Enabled, Next;
    if steps != [] {
      var u := Next(s, steps[0]);
      if !Harmless(s, steps[0]) {
        var q: nat :| IsReader(s, q, Asleep);
        Strands(s, steps[0].p, q);
        assert false;
      }
      DataStep(s, steps[0]);
      StuckSomewhere(u, steps[1..], t);
    }
  }

  /** Nobody is ever stuck in a run if and only if every killed writer of it returned while no reader was asleep. */
  lemma NobodyStuckExactlyWhen(s: State, steps: seq<Step>, t: State)
    requires Init(s) && Reaches(s, steps, t)
    ensures NeverStuck(s, steps) <==> HarmlessRun(s, steps)
  {
    hide Init, Reaches, HarmlessRun, NeverStuck, DataOk;
    InitOk(s);
    if HarmlessRun(s, steps) {
      NeverStuckFrom(s, steps, t);
    }
    if NeverStuck(s, steps) {
      StuckSomewhere(s, steps, t);
    }
  }

  // ------------------------------------------ a killed writer that does harm

  function Stores(p: nat, k: nat): seq<Step> {
    if k == 0 then [] else [Store(p)] + Stores(p, k - 1)
  }

  /** A writer that holds the lock can store k bytes if there is room for them. */
  lemma {:induction false} StoreRun(s: State, p: nat, k: nat) returns (t: State)
    requires IsWriter(s, p, Holds) && RingOk(s.ring) && s.procs[p].i + k <= |s.procs[p].buf|
    requires Count(s.ring) + k <= PIPESIZE
    ensures Reaches(s, Stores(p, k), t) && RingOk(t.ring) && Count(t.ring) == Count(s.ring) + k
    ensures t.procs == s.procs[p := Writer(s.procs[p].buf, s.procs[p].i + k, Holds)]
    ensures t.lock == s.lock && t.readopen == s.readopen
    decreases k
  {
    hide Count;
    if k == 0 {
      t := s;
    } else {
      Tests(s.ring);
      var x := s.procs[p];
      PutAppends(s.ring, x.buf[x.i]);
      PutCount(s.ring, x.buf[x.i]);
      var u := Next(s, Store(p));
      t := StoreRun(u, p, k - 1);
      assert Stores(p, k)[1..] == Stores(p, k - 1);
    }
  }

  lemma {:induction false} ReachesThen(s: State, a: seq<Step>, u: State, b: seq<Step>, t: State)
    requires Reaches(s, a, u) && Reaches(u, b, t)
    ensures Reaches(s, a + b, t)
    decreases |a|
  {
    hide Next, Enabled;
    if a == [] {
      assert a + b == b;
    } else {
      ReachesThen(Next(s, a[0]), a[1..], u, b, t);
      assert (a + b)[1..] == a[1..] + b;
    }
  }

  /** One reader asleep on the empty pipe, one writer about to store 513 bytes. */
  lemma ReaderSleeps() returns (s: State, steps: seq<Step>, t: State)
    ensures Init(s) && Reaches(s, steps, t) && RingOk(t.ring) && Count(t.ring) == 0
    ensures t.procs == [Reader(1, [], Asleep), Writer(Zeros(513), 0, Holds)] && t.lock == 1
  {
    hide Reaches, Zeros;
    s := State(Ring(Zeros(512), 0, 0), true, true, FREE, [Idle, Idle], [], []);
    var s1 := Next(s, BeginRead(0, 1));
    var s2 := Next(s1, Lock(0));
    var s3 := Next(s2, WaitData(0));
    var s4 := Next(s3, BeginWrite(1, Zeros(513)));
    t := Next(s4, Lock(1));
    OneStep(s, BeginRead(0, 1));
    OneStep(s1, Lock(0));
    OneStep(s2, WaitData(0));
    OneStep(s3, BeginWrite(1, Zeros(513)));
    OneStep(s4, Lock(1));
    ReachesThen(s, [BeginRead(0, 1)], s1, [Lock(0)], s2);
    ReachesThen(s, [BeginRead(0, 1)] + [Lock(0)], s2, [WaitData(0)], s3);
    ReachesThen(s, [BeginRead(0, 1)] + [Lock(0)] + [WaitData(0)], s3, [BeginWrite(1, Zeros(513))], s4);
    steps := [BeginRead(0, 1)] + [Lock(0)] + [WaitData(0)] + [BeginWrite(1, Zeros(513))];
    ReachesThen(s, steps, s4, [Lock(1)], t);
    steps := steps + [Lock(1)];
  }

  /** A writer killed on a full pipe strands a sleeping reader: 512 bytes are there, the lock is free and nobody has
      woken it; only a later writer or the closing of the write end would. */
  lemma KilledWriterStrands() returns (s: State, steps: seq<Step>, t: State)
    ensures Init(s) && Reaches(s, steps, t) && t.lock == FREE && IsReader(t, 0, Asleep) && IsFull(t.ring)
    ensures |t.procs| == 2 && t.procs[1].Idle?
  {
    hide Init, Stores, Count, Contents;
    var a: seq<Step>, u: State;
    s, a, u := ReaderSleeps();
    var v := StoreRun(u, 1, 512);
    Tests(v.ring);
    ReachesThen(s, a, u, Stores(1, 512), v);
    t := Next(v, KilledWrite(1));
    assert Reaches(v, [KilledWrite(1)], t) by { OneStep(v, KilledWrite(1)); }
    ReachesThen(s, a + Stores(1, 512), v, [KilledWrite(1)], t);
    steps := a + Stores(1, 512) + [KilledWrite(1)];
  }

  lemma OneStep(s: State, step: Step)
    requires Enabled(s, step)
    ensures Reaches(s, [step], Next(s, step))
  {
    hide Next, Enabled;
    assert [step][1..] == [];
  }
}
