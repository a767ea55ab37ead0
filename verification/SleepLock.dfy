/**
 Sleep locks over sleep/wakeup (kern/sleeplock.c, kern/proc.c, kern/spinlock.c)
 as interleaved steps of any number of processes and locks. Each step is one
 spinlock operation or one access made under a spinlock, so every interleaving
 of the kernel's instructions that matters is a run of this machine.
 */
module SleepLock {
  /** Where a process is inside acquiresleep, releasesleep, holdingsleep or sleep, on lock l. */
  datatype Pc =
    | Idle
    | Acquiring(l: nat)     // acquiresleep, or sleep on its way out: spinning in acquire(&lk->lk)
    | Testing(l: nat)       // holds lk->lk: while (lk->locked)
    | Taking(l: nat)        // holds lk->lk: locked = 1, pid = me
    | Taken(l: nat)         // holds lk->lk: release(&lk->lk)
    | EnterSleep(l: nat)    // holds lk->lk: acquire(&ptable.lock)
    | DropInner(l: nat)     // holds both: release(lk)
    | FallAsleep(l: nat)    // holds ptable.lock: chan = lk, state = SLEEPING, sched()
    | Parked(l: nat)        // switched out in sched()
    | Woken(l: nat)         // resumed holding ptable.lock: chan = 0, release(&ptable.lock)
    | Releasing(l: nat)     // releasesleep: spinning in acquire(&lk->lk)
    | Clearing(l: nat)      // holds lk->lk: locked = 0, pid = 0
    | EnterWakeup(l: nat)   // holds lk->lk: wakeup's acquire(&ptable.lock)
    | Waking(l: nat)        // holds both: wakeup1(lk)
    | LeaveWakeup(l: nat)   // holds both: release(&ptable.lock)
    | Released(l: nat)      // holds lk->lk: release(&lk->lk)
    | Asking(l: nat)        // holdingsleep: spinning in acquire(&lk->lk)
    | Looking(l: nat)       // holds lk->lk: r = locked && pid == me
    | Answering(l: nat, r: bool)  // holds lk->lk: release(&lk->lk), return r
    | Yielded(next: Pc)     // preempted, switched out in sched()
    | Resumed(next: Pc)     // back from a preemption, holding ptable.lock

  datatype Run = Running | Runnable | Sleeping

  datatype Proc = Proc(pc: Pc, run: Run, chan: int)

  const NOCHAN: int := -1

  /** struct sleeplock: owner of the inner spinlock, and the locked and pid fields. */
  datatype Lock = Lock(inner: int, locked: bool, pid: int)

  const FREE: int := -1   // nobody: a free spinlock, or pid 0
  const SCHED: int := -2  // a scheduler holds ptable.lock

  datatype Call = NoCall | Acq(l: nat) | Rel(l: nat) | Ask(l: nat)

  /**
   What a process knows of its own calls: the one it is in, and the locks for which an
   acquiresleep has returned and no releasesleep has been called since.
   */
  datatype User = User(call: Call, has: set<nat>)

  datatype State = State(procs: seq<Proc>, locks: seq<Lock>, ptable: int, users: seq<User>)

  predicate Init(s: State) {
    && s.ptable == FREE
    && |s.users| == |s.procs| && (forall p :: 0 <= p < |s.users| ==> s.users[p] == User(NoCall, {}))
    && (forall p :: 0 <= p < |s.procs| ==> s.procs[p] == Proc(Idle, Runnable, NOCHAN))
    && forall l :: 0 <= l < |s.locks| ==> s.locks[l] == Lock(FREE, false, FREE)
  }

  datatype Step =
    | Acquire(p: nat, l: nat)  // call acquiresleep(l)
    | Release(p: nat, l: nat)  // call releasesleep(l), which only a process that has l does
    | Query(p: nat, l: nat)    // call holdingsleep(l)
    | Go(p: nat)               // p's next instruction
    | Preempt(p: nat)          // timer: yield()
    | SchedEnter               // a scheduler takes ptable.lock
    | SchedLeave               // and gives it up
    | SchedPick(p: nat)        // and switches to p, who then owns ptable.lock
    | Kill(p: nat)             // raise_on(p): a signal makes a sleeper runnable

  /** A process holding no spinlock, so interrupts are on and it can be preempted. */
  predicate Preemptible(pc: Pc) {
    pc.Idle? || pc.Acquiring? || pc.Releasing? || pc.Asking?
  }

  predicate HasInner(pc: Pc, l: nat) {
    match pc
    case Testing(m) => m == l
    case Taking(m) => m == l
    case Taken(m) => m == l
    case EnterSleep(m) => m == l
    case DropInner(m) => m == l
    case Clearing(m) => m == l
    case EnterWakeup(m) => m == l
    case Waking(m) => m == l
    case LeaveWakeup(m) => m == l
    case Released(m) => m == l
    case Looking(m) => m == l
    case Answering(m, _) => m == l
    case _ => false
  }

  predicate HasPtable(pc: Pc) {
    pc.DropInner? || pc.FallAsleep? || pc.Woken? || pc.Waking? || pc.LeaveWakeup? || pc.Resumed?
  }

  predicate Enabled(s: State, step: Step) {
    match step
    case Acquire(p, l) => CanCall(s, p, l) && l !in s.users[p].has
    case Release(p, l) => CanCall(s, p, l) && l in s.users[p].has
    case Query(p, l) => CanCall(s, p, l)
    case Go(p) =>
      && p < |s.procs| && s.procs[p].run.Running?
      && PcIndexed(s.procs[p].pc, |s.locks|) && CanGo(s, s.procs[p].pc)
    case Preempt(p) => p < |s.procs| && s.procs[p].run.Running? && Preemptible(s.procs[p].pc) && s.ptable == FREE
    case SchedEnter => s.ptable == FREE
    case SchedLeave => s.ptable == SCHED
    case SchedPick(p) => p < |s.procs| && s.procs[p].run.Runnable? && s.ptable == SCHED
    case Kill(p) => p < |s.procs| && s.ptable == FREE
  }

  predicate CanCall(s: State, p: nat, l: nat) {
    p < |s.procs| && p < |s.users| && l < |s.locks| && s.procs[p].run.Running? && s.procs[p].pc.Idle?
  }

  /** The next instruction is not a spin on a held lock. */
  predicate CanGo(s: State, pc: Pc) {
    match pc
    case Idle => false
    case Acquiring(l) => l < |s.locks| && s.locks[l].inner == FREE
    case Releasing(l) => l < |s.locks| && s.locks[l].inner == FREE
    case Asking(l) => l < |s.locks| && s.locks[l].inner == FREE
    case EnterSleep(_) => s.ptable == FREE
    case EnterWakeup(_) => s.ptable == FREE
    case Parked(_) => false
    case Yielded(_) => false
    case _ => true
  }

  function SetPc(s: State, p: nat, pc: Pc): State
    requires p < |s.procs|
  {
    s.(procs := s.procs[p := s.procs[p].(pc := pc)])
  }

  function SetLock(s: State, l: nat, k: Lock): State
    requires l < |s.locks|
  {
    s.(locks := s.locks[l := k])
  }

  /** wakeup1(chan) */
  function Wakeup1(procs: seq<Proc>, chan: int): (r: seq<Proc>)
    ensures |r| == |procs|
    ensures forall p :: 0 <= p < |procs| ==> r[p] == WakeIf(procs[p], chan)
  {
    seq(|procs|, p requires 0 <= p < |procs| => WakeIf(procs[p], chan))
  }

  function WakeIf(q: Proc, chan: int): Proc {
    if q.run.Sleeping? && q.chan == chan then q.(run := Runnable) else q
  }

  /** What p knows after its call has returned. */
  function Returned(u: User): User {
    match u.call
    case Acq(l) => User(NoCall, u.has + {l})
    case _ => User(NoCall, u.has)
  }

  /** Calls and returns, seen from outside: a call has returned when its process is idle again. */
  function Observe(s: State, t: State, step: Step): seq<User> {
    match step
    case Acquire(p, l) => if p < |s.users| then s.users[p := User(Acq(l), s.users[p].has)] else s.users
    case Release(p, l) => if p < |s.users| then s.users[p := User(Rel(l), s.users[p].has - {l})] else s.users
    case Query(p, l) => if p < |s.users| then s.users[p := User(Ask(l), s.users[p].has)] else s.users
    case Go(p) =>
      if p < |t.procs| && p < |s.users| && t.procs[p].pc.Idle? then s.users[p := Returned(s.users[p])] else s.users
    case _ => s.users
  }

  function Next(s: State, step: Step): State
    requires Enabled(s, step)
  {
    var t := Do(s, step);
    t.(users := Observe(s, t, step))
  }

  /** The kernel's part, which knows nothing of the users. */
  function Do(s: State, step: Step): State
    requires Enabled(s, step)
  {
    match step
    case Acquire(p, l) => SetPc(s, p, Acquiring(l))
    case Release(p, l) => SetPc(s, p, Releasing(l))
    case Query(p, l) => SetPc(s, p, Asking(l))
    case Go(p) => Advance(s, p)
    case Preempt(p) =>
        s.(procs := s.procs[p := s.procs[p].(pc := Yielded(s.procs[p].pc), run := Runnable)], ptable := SCHED)
    case SchedEnter => s.(ptable := SCHED)
    case SchedLeave => s.(ptable := FREE)
    case SchedPick(p) =>
      var q := s.procs[p];
      var pc := match q.pc
                case Parked(l) => Woken(l)
                case Yielded(k) => Resumed(k)
                case _ => Resumed(q.pc);  // the first switch to a new process enters forkret
      s.(procs := s.procs[p := q.(pc := pc, run := Running)], ptable := p)
    case Kill(p) =>
        s.(procs := s.procs[p := if s.procs[p].run.Sleeping? then s.procs[p].(run := Runnable) else s.procs[p]])
  }

  /** The lock number in a program counter names a lock. */
  predicate PcIndexed(pc: Pc, n: nat) {
    match pc
    case Idle => true
    case Yielded(k) => Preemptible(k) && (k.Idle? || k.l < n)
    case Resumed(k) => Preemptible(k) && (k.Idle? || k.l < n)
    case _ => pc.l < n
  }

  function Advance(s: State, p: nat): State
    requires p < |s.procs| && CanGo(s, s.procs[p].pc) && PcIndexed(s.procs[p].pc, |s.locks|)
  {
    var q := s.procs[p];
    match q.pc
    case Acquiring(l) => SetLock(SetPc(s, p, Testing(l)), l, s.locks[l].(inner := p))
    case Testing(l) => SetPc(s, p, if s.locks[l].locked then EnterSleep(l) else Taking(l))
    case Taking(l) =>
      SetLock(SetPc(s, p, Taken(l)), l, s.locks[l].(locked := true, pid := p))
    case Taken(l) => SetLock(SetPc(s, p, Idle), l, s.locks[l].(inner := FREE))
    case EnterSleep(l) => SetPc(s, p, DropInner(l)).(ptable := p)
    case DropInner(l) => SetLock(SetPc(s, p, FallAsleep(l)), l, s.locks[l].(inner := FREE))
    case FallAsleep(l) => s.(procs := s.procs[p := q.(pc := Parked(l), run := Sleeping, chan := l)], ptable := SCHED)
    case Woken(l) => s.(procs := s.procs[p := q.(pc := Acquiring(l), chan := NOCHAN)], ptable := FREE)
    case Releasing(l) => SetLock(SetPc(s, p, Clearing(l)), l, s.locks[l].(inner := p))
    case Clearing(l) =>
      SetLock(SetPc(s, p, EnterWakeup(l)), l, s.locks[l].(locked := false, pid := FREE))
    case EnterWakeup(l) => SetPc(s, p, Waking(l)).(ptable := p)
    case Waking(l) => SetPc(s.(procs := Wakeup1(s.procs, l)), p, LeaveWakeup(l))
    case LeaveWakeup(l) => SetPc(s, p, Released(l)).(ptable := FREE)
    case Released(l) => SetLock(SetPc(s, p, Idle), l, s.locks[l].(inner := FREE))
    case Asking(l) => SetLock(SetPc(s, p, Looking(l)), l, s.locks[l].(inner := p))
    case Looking(l) => SetPc(s, p, Answering(l, s.locks[l].locked && s.locks[l].pid == p))
    case Answering(l, _) => SetLock(SetPc(s, p, Idle), l, s.locks[l].(inner := FREE))
    case Resumed(k) => SetPc(s, p, k).(ptable := FREE)
    case _ => s
  }

  // ------------------------------------------------------------- invariant

  /** A process inside acquiresleep(l) that has not taken l yet. */
  predicate Wants(pc: Pc, l: nat) {
    || pc == Acquiring(l) || pc == Testing(l) || pc == Taking(l) || pc == EnterSleep(l) || pc == DropInner(l)
    || pc == FallAsleep(l) || pc == Parked(l) || pc == Woken(l)
    || pc == Yielded(Acquiring(l)) || pc == Resumed(Acquiring(l))
  }

  /** A process inside releasesleep(l) that still owns l. */
  predicate Returns(pc: Pc, l: nat) {
    pc == Releasing(l) || pc == Clearing(l) || pc == Yielded(Releasing(l)) || pc == Resumed(Releasing(l))
  }

  /** The call of a process that can be preempted there. */
  function CallAt(pc: Pc): Call {
    match pc
    case Acquiring(l) => Acq(l)
    case Releasing(l) => Rel(l)
    case Asking(l) => Ask(l)
    case _ => NoCall
  }

  /** The call that a program counter belongs to. */
  function CallOf(pc: Pc): Call {
    match pc
    case Idle => NoCall
    case Yielded(k) => CallAt(k)
    case Resumed(k) => CallAt(k)
    case Releasing(l) => Rel(l)
    case Clearing(l) => Rel(l)
    case EnterWakeup(l) => Rel(l)
    case Waking(l) => Rel(l)
    case LeaveWakeup(l) => Rel(l)
    case Released(l) => Rel(l)
    case Asking(l) => Ask(l)
    case Looking(l) => Ask(l)
    case Answering(l, _) => Ask(l)
    case _ => Acq(pc.l)
  }

  /** p owns l: it has it, has just taken it, or is giving it back. */
  predicate Owns(s: State, p: nat, l: nat)
    requires p < |s.procs| && p < |s.users|
  {
    l in s.users[p].has || s.procs[p].pc == Taken(l) || Returns(s.procs[p].pc, l)
  }

  /** Program points reached only with the flag in a known state. */
  predicate PhaseOk(s: State, q: Proc) {
    match q.pc
    case Taking(l) => l < |s.locks| && !s.locks[l].locked
    case EnterSleep(l) => l < |s.locks| && s.locks[l].locked
    case DropInner(l) => l < |s.locks| && s.locks[l].locked
    case EnterWakeup(l) => l < |s.locks| && !s.locks[l].locked
    case Waking(l) => l < |s.locks| && !s.locks[l].locked
    case _ => true
  }

  /** Run states match the program counters; a sleeper's channel is its lock. */
  predicate Scheduled(q: Proc) {
    && (q.run.Sleeping? ==> q.pc.Parked? && q.chan == q.pc.l)
    && (q.run.Runnable? ==> q.pc.Parked? || q.pc.Yielded? || q.pc.Idle?)
    && (q.run.Running? ==> !q.pc.Parked? && !q.pc.Yielded?)
    && (!q.pc.Parked? && !q.pc.Woken? ==> q.chan == NOCHAN)
  }

  predicate ProcOk(s: State, p: nat)
    requires p < |s.procs|
  {
    var q := s.procs[p];
    && PcIndexed(q.pc, |s.locks|) && Scheduled(q) && PhaseOk(s, q)
    && (HasPtable(q.pc) <==> s.ptable == p)
    && p < |s.users| && s.users[p].call == CallOf(q.pc)
  }

  /** p is committed to sleep on l, or already asleep there. */
  predicate WaitsFor(q: Proc, l: nat) {
    q.pc == FallAsleep(l) || (q.run.Sleeping? && q.pc == Parked(l))
  }

  /** The owner of l's inner lock has cleared locked and not yet run wakeup1. */
  predicate WakeupPending(s: State, l: nat)
    requires l < |s.locks|
  {
    var o := s.locks[l].inner;
    0 <= o < |s.procs| && (s.procs[o].pc == EnterWakeup(l) || s.procs[o].pc == Waking(l))
  }

  /** Process p and lock l: who owns the spinlock. */
  predicate InnerOk(s: State, p: nat, l: nat)
    requires p < |s.procs| && l < |s.locks|
  {
    HasInner(s.procs[p].pc, l) <==> s.locks[l].inner == p
  }

  /** And who owns the sleep lock; in between acquiresleep and releasesleep nobody has it yet, or any more. */
  predicate HolderOk(s: State, p: nat, l: nat)
    requires p < |s.procs| && l < |s.locks| && p < |s.users|
  {
    && (Owns(s, p, l) <==> s.locks[l].locked && s.locks[l].pid == p)
    && (CallOf(s.procs[p].pc) == Acq(l) || CallOf(s.procs[p].pc) == Rel(l) ==> l !in s.users[p].has)
    && (s.procs[p].pc.Answering? && s.procs[p].pc.l == l ==> (s.procs[p].pc.r <==> l in s.users[p].has))
  }

  predicate OwnOk(s: State, p: nat, l: nat)
    requires p < |s.procs| && l < |s.locks| && p < |s.users|
  {
    InnerOk(s, p, l) && HolderOk(s, p, l)
  }

  /** A process waiting for l waits for a release that is still to come, wakeup included. */
  predicate WakeOk(s: State, p: nat, l: nat)
    requires p < |s.procs| && l < |s.locks|
  {
    WaitsFor(s.procs[p], l) ==> s.locks[l].locked || WakeupPending(s, l)
  }

  predicate PairOk(s: State, p: nat, l: nat)
    requires p < |s.procs| && l < |s.locks| && p < |s.users|
  {
    OwnOk(s, p, l) && WakeOk(s, p, l)
  }

  predicate Inv(s: State) {
    && |s.users| == |s.procs|
    && (forall p :: 0 <= p < |s.procs| ==> ProcOk(s, p))
    && (forall p, l :: 0 <= p < |s.procs| && 0 <= l < |s.locks| ==> PairOk(s, p, l))
    && (forall l :: 0 <= l < |s.locks| ==> LockOk(s, l))
    && SCHED <= s.ptable < |s.procs|
  }

  predicate LockOk(s: State, l: nat)
    requires l < |s.locks|
  {
    && FREE <= s.locks[l].inner < |s.procs|
    && if s.locks[l].locked then 0 <= s.locks[l].pid < |s.procs| else s.locks[l].pid == FREE
  }

  lemma InitInv(s: State)
    requires Init(s)
    ensures Inv(s)
  {
  }

  lemma GoSelf(s: State, q: nat)
    requires Enabled(s, Go(q)) && ProcOk(s, q) && forall l :: 0 <= l < |s.locks| ==> PairOk(s, q, l)
    ensures ProcOk(Next(s, Go(q)), q)
  {
    hide Next, Scheduled, PhaseOk, HasPtable, CallOf, PairOk;
    SelfScheduled(s, q);
    SelfPhase(s, q);
    SelfCall(s, q);
  }

  lemma SelfScheduled(s: State, q: nat)
    requires Enabled(s, Go(q)) && Scheduled(s.procs[q]) && (HasPtable(s.procs[q].pc) <==> s.ptable == q)
    ensures var t := Next(s, Go(q));
            && |t.procs| == |s.procs| && |t.locks| == |s.locks| && PcIndexed(t.procs[q].pc, |t.locks|)
            && Scheduled(t.procs[q]) && (HasPtable(t.procs[q].pc) <==> t.ptable == q)
  {
    hide CallOf, Observe;
  }

  lemma SelfPhase(s: State, q: nat)
    requires Enabled(s, Go(q)) && PhaseOk(s, s.procs[q])
    ensures |Next(s, Go(q)).procs| == |s.procs| && PhaseOk(Next(s, Go(q)), Next(s, Go(q)).procs[q])
  {
    hide CallOf, Observe;
  }

  lemma SelfCall(s: State, q: nat)
    requires Enabled(s, Go(q)) && q < |s.users| && s.users[q].call == CallOf(s.procs[q].pc)
    ensures var t := Next(s, Go(q));
            |t.procs| == |s.procs| && |t.users| == |s.users| && t.users[q].call == CallOf(t.procs[q].pc)
  {
  }

  /** What q's instruction leaves of the others. */
  lemma OthersStay(s: State, q: nat, p: nat)
    requires Enabled(s, Go(q)) && p < |s.procs| && p != q
    ensures var t := Next(s, Go(q));
            && |t.procs| == |s.procs| && t.procs[p].pc == s.procs[p].pc && t.procs[p].chan == s.procs[p].chan
            && |t.users| == |s.users| && (p < |s.users| ==> t.users[p] == s.users[p])
            && (t.procs[p].run == s.procs[p].run ||
                (t.procs[p].run.Runnable? && s.procs[p].run.Sleeping? && s.procs[q].pc == Waking(s.procs[p].chan)))
  {
    hide CallOf;
  }

  /** And of the locks. */
  lemma LockStays(s: State, q: nat, l: nat)
    requires Enabled(s, Go(q)) && l < |s.locks|
    ensures var t, k := Next(s, Go(q)), s.locks[l];
            && |t.locks| == |s.locks|
            && ((t.locks[l].locked == k.locked && t.locks[l].pid == k.pid)
                || (s.procs[q].pc == Taking(l) && t.locks[l].locked && t.locks[l].pid == q)
                || (s.procs[q].pc == Clearing(l) && !t.locks[l].locked && t.locks[l].pid == FREE))
            && (t.locks[l].inner == k.inner || (k.inner == FREE && t.locks[l].inner == q)
                || (HasInner(s.procs[q].pc, l) && t.locks[l].inner == FREE))
  {
    hide CallOf, Observe;
  }

  lemma PtableStays(s: State, q: nat)
    requires Enabled(s, Go(q))
    ensures var t := Next(s, Go(q));
            t.ptable == s.ptable || (s.ptable == FREE && t.ptable == q)
            || (HasPtable(s.procs[q].pc) && (t.ptable == FREE || t.ptable == SCHED))
  {
    hide CallOf, Observe;
  }

  lemma GoOther(s: State, q: nat, p: nat)
    requires Enabled(s, Go(q)) && p < |s.procs| && p != q && ProcOk(s, q) && ProcOk(s, p) && |s.users| == |s.procs|
    requires forall l :: 0 <= l < |s.locks| ==> PairOk(s, q, l) && PairOk(s, p, l)
    ensures ProcOk(Next(s, Go(q)), p)
  {
    hide Next, CallOf, WakeOk;
    OthersStay(s, q, p);
    PtableStays(s, q);
    var pc := s.procs[p].pc;
    LocksStay(s, q);
    if !pc.Idle? && !pc.Yielded? && !pc.Resumed? {
      LockStays(s, q, pc.l);
      assert PairOk(s, q, pc.l) && PairOk(s, p, pc.l);
    }
  }

  lemma LocksStay(s: State, q: nat)
    requires Enabled(s, Go(q))
    ensures |Next(s, Go(q)).locks| == |s.locks|
  {
  }

  lemma GoInner(s: State, q: nat, p: nat, l: nat)
    requires Enabled(s, Go(q)) && p < |s.procs| && l < |s.locks| && ProcOk(s, q)
    requires InnerOk(s, p, l) && InnerOk(s, q, l)
    ensures InnerOk(Next(s, Go(q)), p, l)
  {
    hide CallOf, Observe, Scheduled, PhaseOk, HasPtable;
    if p != q {
      hide Next;
      OthersStay(s, q, p);
      LockStays(s, q, l);
    }
  }

  lemma GoHolderSelf(s: State, q: nat, l: nat)
    requires Enabled(s, Go(q)) && l < |s.locks| && ProcOk(s, q) && InnerOk(s, q, l) && HolderOk(s, q, l)
    ensures q < |Next(s, Go(q)).users| && HolderOk(Next(s, Go(q)), q, l)
  {
    hide Scheduled, HasPtable, HasInner;
  }

  lemma GoHolderOther(s: State, q: nat, p: nat, l: nat)
    requires Enabled(s, Go(q)) && p < |s.procs| && p != q && l < |s.locks| && ProcOk(s, q) && p < |s.users|
    requires HolderOk(s, p, l) && HolderOk(s, q, l)
    ensures p < |Next(s, Go(q)).users| && HolderOk(Next(s, Go(q)), p, l)
  {
    hide Next, CallOf, Scheduled, HasPtable, HasInner;
    OthersStay(s, q, p);
    LockStays(s, q, l);
  }

  lemma GoWake(s: State, q: nat, p: nat, l: nat)
    requires Enabled(s, Go(q)) && p < |s.procs| && l < |s.locks| && ProcOk(s, q) && ProcOk(s, p)
    requires OwnOk(s, q, l) && WakeOk(s, p, l)
    ensures WakeOk(Next(s, Go(q)), p, l)
  {
    hide Wants, Returns;
  }

  lemma GoPair(s: State, q: nat, p: nat, l: nat)
    requires Enabled(s, Go(q)) && p < |s.procs| && l < |s.locks| && ProcOk(s, q) && ProcOk(s, p)
    requires p < |s.users| && PairOk(s, p, l) && PairOk(s, q, l)
    ensures PairOk(Next(s, Go(q)), p, l)
  {
    hide Next, ProcOk, InnerOk, HolderOk, WakeOk;
    GoInner(s, q, p, l);
    if p == q { GoHolderSelf(s, q, l); } else { GoHolderOther(s, q, p, l); }
    GoWake(s, q, p, l);
  }

  lemma GoLock(s: State, q: nat, l: nat)
    requires Enabled(s, Go(q)) && l < |s.locks| && LockOk(s, l)
    ensures |Next(s, Go(q)).locks| == |s.locks| && |Next(s, Go(q)).procs| == |s.procs| && LockOk(Next(s, Go(q)), l)
  {
    LockStays(s, q, l);
    hide CallOf, Observe, CanGo, PcIndexed;
  }

  lemma GoKeeps(s: State, q: nat)
    requires Inv(s) && Enabled(s, Go(q))
    ensures Inv(Next(s, Go(q)))
  {
    hide Next, ProcOk, PairOk, LockOk;
    var t := Next(s, Go(q));
    assert |t.procs| == |s.procs| == |t.users| && |t.locks| == |s.locks| && SCHED <= t.ptable < |t.procs| by {
      Shape(s, q);
    }
    forall p | 0 <= p < |s.procs|
      ensures ProcOk(t, p)
    {
      if p == q { GoSelf(s, q); } else { GoOther(s, q, p); }
    }
    forall p, l | 0 <= p < |s.procs| && 0 <= l < |s.locks|
      ensures PairOk(t, p, l)
    {
      GoPair(s, q, p, l);
    }
    forall l | 0 <= l < |s.locks|
      ensures LockOk(t, l)
    {
      GoLock(s, q, l);
    }
  }

  lemma Shape(s: State, q: nat)
    requires Enabled(s, Go(q)) && SCHED <= s.ptable < |s.procs|
    ensures var t := Next(s, Go(q));
            && |t.procs| == |s.procs| && |t.locks| == |s.locks| && |t.users| == |s.users|
            && SCHED <= t.ptable < |t.procs|
  {
  }

  /** Calls, preemptions, the schedulers and signals, seen by process p. */
  lemma OtherProc(s: State, step: Step, p: nat)
    requires Inv(s) && Enabled(s, step) && !step.Go? && p < |s.procs|
    ensures ProcOk(Next(s, step), p)
  {
    hide PairOk, LockOk;
    assert ProcOk(s, p);
  }

  predicate IsBy(step: Step, p: nat) {
    !step.SchedEnter? && !step.SchedLeave? && step.p == p
  }

  lemma OtherStays(s: State, step: Step, p: nat)
    requires Enabled(s, step) && !step.Go? && p < |s.procs| && p < |s.users|
    ensures var t := Next(s, step);
            && t.locks == s.locks && |t.procs| == |s.procs| && |t.users| == |s.users|
            && (!IsBy(step, p) ==> t.procs[p] == s.procs[p] && t.users[p] == s.users[p])
            && (step.Preempt? || step.SchedPick? || step.Kill? ==> t.users[p] == s.users[p])
  {
  }

  lemma OtherOwn(s: State, step: Step, p: nat, l: nat)
    requires Enabled(s, step) && !step.Go? && p < |s.procs| && l < |s.locks| && ProcOk(s, p) && OwnOk(s, p, l)
    ensures p < |Next(s, step).users| && OwnOk(Next(s, step), p, l)
  {
    OtherStays(s, step, p);
    if IsBy(step, p) {
      if step.Acquire? || step.Release? || step.Query? {
        CallHolder(s, step, l);
      } else {
        TurnHolder(s, step, l);
      }
    } else {
      hide Next, HolderOk, InnerOk;
      SameOwn(s, Next(s, step), p, l);
    }
  }

  lemma SameOwn(s: State, t: State, p: nat, l: nat)
    requires p < |s.procs| == |t.procs| && l < |s.locks| && t.locks == s.locks && p < |s.users| == |t.users|
    requires t.procs[p] == s.procs[p] && t.users[p] == s.users[p] && OwnOk(s, p, l)
    ensures OwnOk(t, p, l)
  {
  }

  /** A call begins. */
  lemma CallHolder(s: State, step: Step, l: nat)
    requires Enabled(s, step) && (step.Acquire? || step.Release? || step.Query?) && l < |s.locks|
    requires OwnOk(s, step.p, l)
    ensures step.p < |Next(s, step).users| && OwnOk(Next(s, step), step.p, l)
  {
  }

  /** A process leaves the processor, gets it, or is woken by a signal. */
  lemma TurnHolder(s: State, step: Step, l: nat)
    requires Enabled(s, step) && (step.Preempt? || step.SchedPick? || step.Kill?) && l < |s.locks|
    requires ProcOk(s, step.p) && OwnOk(s, step.p, l)
    ensures step.p < |Next(s, step).users| && OwnOk(Next(s, step), step.p, l)
  {
    hide PhaseOk, HasPtable;
  }

  lemma OtherWake(s: State, step: Step, p: nat, l: nat)
    requires Enabled(s, step) && !step.Go? && p < |s.procs| && l < |s.locks| && ProcOk(s, p) && WakeOk(s, p, l)
    requires WakeupPending(s, l) ==> ProcOk(s, s.locks[l].inner)
    ensures WakeOk(Next(s, step), p, l)
  {
    hide CallOf;
  }

  lemma OtherPair(s: State, step: Step, p: nat, l: nat)
    requires Inv(s) && Enabled(s, step) && !step.Go? && p < |s.procs| && l < |s.locks|
    ensures p < |Next(s, step).users| && PairOk(Next(s, step), p, l)
  {
    hide Next, ProcOk, OwnOk, WakeOk, LockOk;
    assert PairOk(s, p, l) && ProcOk(s, p);
    var o := s.locks[l].inner;
    if 0 <= o < |s.procs| {
      assert ProcOk(s, o);
    }
    OtherOwn(s, step, p, l);
    OtherWake(s, step, p, l);
  }

  lemma OtherKeeps(s: State, step: Step)
    requires Inv(s) && Enabled(s, step) && !step.Go?
    ensures Inv(Next(s, step))
  {
    hide ProcOk, PairOk;
    var t := Next(s, step);
    forall p | 0 <= p < |s.procs|
      ensures ProcOk(t, p)
    {
      OtherProc(s, step, p);
    }
    forall p, l | 0 <= p < |s.procs| && 0 <= l < |s.locks|
      ensures PairOk(t, p, l)
    {
      OtherPair(s, step, p, l);
    }
    forall l | 0 <= l < |s.locks|
      ensures LockOk(t, l)
    {
      assert LockOk(s, l);
    }
  }

  // ------------------------------------------------------------------ runs

  /** s0 runs to s by these steps, each enabled when it is taken. */
  ghost predicate Reaches(s0: State, steps: seq<Step>, s: State)
    decreases |steps|
  {
    if steps == [] then s == s0
    else Enabled(s0, steps[0]) && Reaches(Next(s0, steps[0]), steps[1..], s)
  }

  lemma {:induction false} InvReaches(s0: State, steps: seq<Step>, s: State)
    requires Inv(s0) && Reaches(s0, steps, s)
    ensures Inv(s)
    decreases |steps|
  {
    if steps != [] {
      var t := Next(s0, steps[0]);
      if steps[0].Go? { GoKeeps(s0, steps[0].p); } else { OtherKeeps(s0, steps[0]); }
      InvReaches(t, steps[1..], s);
    }
  }

  /** At most one process has a sleep lock, whatever the interleaving. */
  lemma MutualExclusion(s0: State, steps: seq<Step>, s: State, p: nat, q: nat, l: nat)
    requires Init(s0) && Reaches(s0, steps, s)
    requires p < |s.users| && q < |s.users| && l < |s.locks|
    requires l in s.users[p].has && l in s.users[q].has
    ensures p == q && s.locks[l].locked && s.locks[l].pid == p
  {
    InitInv(s0);
    InvReaches(s0, steps, s);
    assert PairOk(s, p, l) && PairOk(s, q, l);
  }

  /** Process p's next instruction returns from its call. */
  predicate Returning(s: State, p: nat) {
    Enabled(s, Go(p)) && Next(s, Go(p)).procs[p].pc.Idle?
  }

  /** acquiresleep returns with the lock: it is locked, by the process that called. */
  lemma AcquireTakes(s0: State, steps: seq<Step>, s: State, p: nat, l: nat)
    requires Init(s0) && Reaches(s0, steps, s) && p < |s.users| && s.users[p].call == Acq(l) && Returning(s, p)
    ensures var t := Next(s, Go(p));
            p < |t.users| && l in t.users[p].has && l < |t.locks| && t.locks[l].locked && t.locks[l].pid == p
  {
    InitInv(s0);
    InvReaches(s0, steps, s);
    assert ProcOk(s, p) && PairOk(s, p, l);
  }

  /** releasesleep returns without it, and the caller does not own it any more. */
  lemma ReleaseGives(s0: State, steps: seq<Step>, s: State, p: nat, l: nat)
    requires Init(s0) && Reaches(s0, steps, s) && p < |s.users| && s.users[p].call == Rel(l) && Returning(s, p)
    ensures var t := Next(s, Go(p));
            && p < |t.users| && l !in t.users[p].has
            && l < |t.locks| && !(t.locks[l].locked && t.locks[l].pid == p)
  {
    InitInv(s0);
    InvReaches(s0, steps, s);
    assert ProcOk(s, p) && PairOk(s, p, l);
  }

  /** holdingsleep answers whether its caller has the lock. */
  lemma HoldingTells(s0: State, steps: seq<Step>, s: State, p: nat, l: nat)
    requires Init(s0) && Reaches(s0, steps, s) && p < |s.users| && s.users[p].call == Ask(l) && Returning(s, p)
    ensures s.procs[p].pc.Answering? && (s.procs[p].pc.r <==> l in s.users[p].has)
  {
    InitInv(s0);
    InvReaches(s0, steps, s);
    assert ProcOk(s, p) && PairOk(s, p, l);
  }

  /** A lock is taken only by a process in acquiresleep, and freed only by its owner in releasesleep. */
  lemma OwnerUnlocks(s0: State, steps: seq<Step>, s: State, step: Step, l: nat)
    requires Init(s0) && Reaches(s0, steps, s) && Enabled(s, step) && l < |s.locks|
    ensures var t := Next(s, step);
            && l < |t.locks|
            && (s.locks[l].locked && !t.locks[l].locked ==>
                  step.Go? && step.p == s.locks[l].pid && step.p < |s.users| && s.users[step.p].call == Rel(l))
            && (!s.locks[l].locked && t.locks[l].locked ==>
                  step.Go? && step.p == t.locks[l].pid && step.p < |s.users| && s.users[step.p].call == Acq(l))
            && (s.locks[l].locked && t.locks[l].locked ==> t.locks[l].pid == s.locks[l].pid)
  {
    InitInv(s0);
    InvReaches(s0, steps, s);
    if step.Go? {
      assert ProcOk(s, step.p) && PairOk(s, step.p, l);
    }
  }

  /** A free lock names nobody, a process that is not in sleep has no channel, and a signal ends every sleep. */
  lemma NothingStale(s0: State, steps: seq<Step>, s: State, p: nat, l: nat)
    requires Init(s0) && Reaches(s0, steps, s) && p < |s.procs| && l < |s.locks|
    ensures !s.locks[l].locked ==> s.locks[l].pid == FREE
    ensures !s.procs[p].pc.Parked? && !s.procs[p].pc.Woken? ==> s.procs[p].chan == NOCHAN
    ensures Enabled(s, Kill(p)) ==> !Next(s, Kill(p)).procs[p].run.Sleeping?
  {
    InitInv(s0);
    InvReaches(s0, steps, s);
    assert ProcOk(s, p) && LockOk(s, l);
  }

  /**
   No lost wakeup: in every run, whenever the inner spinlock of a sleep lock is
   free, a process asleep on it means that another process owns the lock and has yet to
   come to releasesleep's wakeup: it has the lock, or is in releasesleep and has not
   freed it.
   */
  lemma SleeperHasHolder(s0: State, steps: seq<Step>, s: State, p: nat, l: nat)
    requires Init(s0) && Reaches(s0, steps, s)
    requires p < |s.procs| && l < |s.locks| && s.locks[l].inner == FREE
    requires s.procs[p].run.Sleeping? && s.procs[p].chan == l
    ensures s.locks[l].locked && |s.users| == |s.procs|
    ensures exists h :: && 0 <= h < |s.procs| && h != p && s.locks[l].pid == h
                        && (l in s.users[h].has || s.users[h].call == Rel(l))
  {
    InitInv(s0);
    InvReaches(s0, steps, s);
    assert ProcOk(s, p) && PairOk(s, p, l) && LockOk(s, l);
    var h := s.locks[l].pid;
    assert PairOk(s, h, l);
    assert ProcOk(s, h);
  }
}
