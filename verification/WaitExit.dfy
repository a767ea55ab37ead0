/**
 fork, exit and waitpid over the process table (kern/proc.c) as interleaved steps of
 any number of processes. What runs under ptable.lock is one step; fork's writes to
 its new slot outside the lock are steps of their own.
 */
module WaitExit {
  import opened Basics

  datatype Run = Unused | Embryo | Sleeping | Runnable | Running | Zombie

  /** What a sleeper sleeps on: a process slot's address or anything else. */
  datatype Chan = OnProc(p: nat) | Other(n: nat)

  /** Where a process is. */
  datatype Pc =
    | User                       // in none of these
    | Forking(np: nat)           // allocproc done, address space not copied yet
    | Parented(np: nat)          // np->parent set, np not runnable yet
    | Waiting(target: int)       // in waitpid's sleep
    | Asleep                     // in some other sleep

  datatype Proc = Proc(run: Run, pid: nat, parent: Option<nat>, chan: Option<Chan>, killed: bool, pending: set<nat>,
                       catches: set<nat>, pc: Pc)

  /** The table, nextpid, and the pids that have exited and, in order, been reaped. */
  datatype State = State(procs: seq<Proc>, nextpid: nat, exited: set<nat>, reaped: seq<nat>)

  const INIT: nat := 0  // initproc's slot
  const NSIG: nat := 32
  const SIGKILL: nat := 9

  datatype Step =
    | Pick(p: nat)                           // scheduler
    | Yield(p: nat)
    | AllocProc(p: nat, np: nat)             // fork: allocproc takes a free slot
    | ForkFail(p: nat)                       // no stack or no memory for the copy
    | SetParent(p: nat)
    | ForkDone(p: nat)
    | Exit(p: nat)
    | Reap(p: nat, target: int, c: nat)      // waitpid finds a zombie
    | GiveUp(p: nat, target: int)            // waitpid returns -1
    | NoHang(p: nat, target: int)            // waitpid returns 0
    | WaitSleep(p: nat, target: int)
    | Sleep(p: nat, chan: Chan)
    | Wake(chan: Chan)                       // wakeup
    | Resume(p: nat)                         // sleep returns
    | Signal(p: nat, sig: nat)               // raise_on
    | Fault(p: nat)                          // a trap in user space
    | Catch(p: nat, mask: set<nat>)          // signal_catch
    | Take(p: nat, sig: nat)                 // signal_take finds a claimed signal

  predicate Matches(s: State, p: nat, target: int, c: nat) {
    c < |s.procs| && s.procs[c].parent == Some(p) && (target == -1 || s.procs[c].pid == target)
  }

  predicate IsRunning(s: State, p: nat) {
    p < |s.procs| && s.procs[p].run.Running?
  }

  /** p is in waitpid(target), newly called or back from its sleep. */
  predicate InWait(s: State, p: nat, target: int) {
    IsRunning(s, p) && !BadTarget(target) && (s.procs[p].pc.User? || s.procs[p].pc == Waiting(target))
  }

  /** A claimed signal is pending. */
  predicate Interrupted(x: Proc) {
    x.pending * x.catches != {}
  }

  /** A signal that the process has not claimed kills it, unless it is init. */
  predicate Fatal(x: Proc, sig: nat) {
    sig == SIGKILL || (sig != 0 && sig !in x.catches && x.pid != 1)
  }

  predicate BadTarget(target: int) {
    target == 0 || target < -1
  }

  /** p has a child to wait for, none of them has exited, and nothing calls p away. */
  predicate MustWait(s: State, p: nat, target: int)
    requires p < |s.procs|
  {
    NoZombie(s, p, target) && !NoKids(s, p, target) && !s.procs[p].killed && !Interrupted(s.procs[p])
  }

  predicate Enabled(s: State, step: Step) {
    match step
    case Pick(p) => p < |s.procs| && s.procs[p].run.Runnable?
    case Yield(p) => IsRunning(s, p)
    case AllocProc(p, np) => IsRunning(s, p) && s.procs[p].pc.User? && np < |s.procs| && s.procs[np].run.Unused?
    case ForkFail(p) => IsRunning(s, p) && s.procs[p].pc.Forking? && s.procs[p].pc.np < |s.procs|
    case SetParent(p) => IsRunning(s, p) && s.procs[p].pc.Forking? && s.procs[p].pc.np < |s.procs|
    case ForkDone(p) => IsRunning(s, p) && s.procs[p].pc.Parented? && s.procs[p].pc.np < |s.procs|
    case Exit(p) => IsRunning(s, p) && s.procs[p].pc.User? && p != INIT
    case Reap(p, target, c) => InWait(s, p, target) && Matches(s, p, target, c) && s.procs[c].run.Zombie?
    case GiveUp(p, target) =>
      || (IsRunning(s, p) && s.procs[p].pc.User? && BadTarget(target))
      || (InWait(s, p, target) && NoZombie(s, p, target)
          && (NoKids(s, p, target) || s.procs[p].killed || Interrupted(s.procs[p])))
    case NoHang(p, target) => InWait(s, p, target) && s.procs[p].pc.User? && MustWait(s, p, target)
    case WaitSleep(p, target) => InWait(s, p, target) && MustWait(s, p, target)
    case Sleep(p, chan) => IsRunning(s, p) && s.procs[p].pc.User?
    case Wake(chan) => true
    case Resume(p) => IsRunning(s, p) && s.procs[p].pc.Asleep?
    case Signal(p, sig) => p < |s.procs| && !s.procs[p].run.Unused? && sig < NSIG
    case Fault(p) => IsRunning(s, p) && s.procs[p].pc.User?
    case Catch(p, mask) => IsRunning(s, p) && s.procs[p].pc.User?
    case Take(p, sig) =>
      && IsRunning(s, p) && s.procs[p].pc.User? && sig in s.procs[p].pending * s.procs[p].catches
      && forall k :: k in s.procs[p].pending * s.procs[p].catches ==> sig <= k
  }

  predicate NoZombie(s: State, p: nat, target: int) {
    forall c :: 0 <= c < |s.procs| && Matches(s, p, target, c) ==> !s.procs[c].run.Zombie?
  }

  predicate NoKids(s: State, p: nat, target: int) {
    forall c :: 0 <= c < |s.procs| ==> !Matches(s, p, target, c)
  }

  function With(s: State, p: nat, x: Proc): State
    requires p < |s.procs|
  {
    s.(procs := s.procs[p := x])
  }

  /** wakeup1 for one process. */
  function Woken(x: Proc, chan: Option<Chan>): Proc {
    if x.run.Sleeping? && x.chan.Some? && x.chan == chan then x.(run := Runnable) else x
  }

  function WakeAll(procs: seq<Proc>, chan: Option<Chan>): (r: seq<Proc>)
    ensures |r| == |procs| && forall i :: 0 <= i < |r| ==> r[i] == Woken(procs[i], chan)
  {
    seq(|procs|, i requires 0 <= i < |procs| => Woken(procs[i], chan))
  }

  /** The channel wakeup1(p->parent) uses. */
  function ParentChan(x: Proc): Option<Chan> {
    if x.parent.Some? then Some(OnProc(x.parent.value)) else None
  }

  /** One of the first n slots is a zombie child of p. */
  predicate ZombieChild(procs: seq<Proc>, p: nat, n: nat)
    requires n <= |procs|
  {
    n > 0 && ((procs[n - 1].parent == Some(p) && procs[n - 1].run.Zombie?) || ZombieChild(procs, p, n - 1))
  }

  /** A slot after exit's loop: a child of p is init's now, and a zombie among them has woken init. */
  function Handed(x: Proc, p: nat, passed: bool, zombie: bool): Proc {
    var y := if zombie then Woken(x, Some(OnProc(INIT))) else x;
    if passed && x.parent == Some(p) then y.(parent := Some(INIT)) else y
  }

  /** exit's loop over the first n slots. */
  function HandOver(procs: seq<Proc>, p: nat, n: nat): (r: seq<Proc>)
    requires n <= |procs| && p != INIT
    ensures |r| == |procs| && forall i :: 0 <= i < |r| ==> r[i] == Handed(procs[i], p, i < n, ZombieChild(procs, p, n))
  {
    if n == 0 then procs else
      var q := HandOver(procs, p, n - 1);
      if q[n - 1].parent != Some(p) then q else
        var r := q[n - 1 := q[n - 1].(parent := Some(INIT))];
        if r[n - 1].run.Zombie? then WakeAll(r, Some(OnProc(INIT))) else r
  }

  function Exited(s: State, p: nat): State
    requires p < |s.procs| && p != INIT
  {
    var a := WakeAll(s.procs, ParentChan(s.procs[p]));
    var b := HandOver(a, p, |a|);
    State(b[p := b[p].(run := Zombie)], s.nextpid, s.exited + {s.procs[p].pid}, s.reaped)
  }

  function Next(s: State, step: Step): State
    requires Enabled(s, step)
  {
    match step
    case Pick(p) => With(s, p, s.procs[p].(run := Running))
    case Yield(p) => With(s, p, s.procs[p].(run := Runnable))
    case AllocProc(p, np) =>
      var t := With(s, np, s.procs[np].(run := Embryo, pid := s.nextpid, pending := {}, catches := {}));
      With(t, p, t.procs[p].(pc := Forking(np))).(nextpid := s.nextpid + 1)
    case ForkFail(p) =>
      var np := s.procs[p].pc.np;
      var t := With(s, np, s.procs[np].(run := Unused));
      With(t, p, t.procs[p].(pc := User))
    case SetParent(p) =>
      var np := s.procs[p].pc.np;
      var t := With(s, np, s.procs[np].(parent := Some(p)));
      With(t, p, t.procs[p].(pc := Parented(np)))
    case ForkDone(p) =>
      var np := s.procs[p].pc.np;
      var t := With(s, np, s.procs[np].(run := Runnable, pc := User));
      With(t, p, t.procs[p].(pc := User))
    case Exit(p) => Exited(s, p)
    case Reap(p, target, c) =>
      var t := With(s, c, Proc(Unused, 0, None, s.procs[c].chan, false, {}, {}, User));
      With(t, p, t.procs[p].(chan := None, pc := User)).(reaped := s.reaped + [s.procs[c].pid])
    case GiveUp(p, target) => With(s, p, s.procs[p].(chan := None, pc := User))
    case NoHang(p, target) => s
    case WaitSleep(p, target) =>
        With(s, p, s.procs[p].(run := Sleeping, chan := Some(OnProc(p)), pc := Waiting(target)))
    case Sleep(p, chan) => With(s, p, s.procs[p].(run := Sleeping, chan := Some(chan), pc := Asleep))
    case Wake(chan) => s.(procs := WakeAll(s.procs, Some(chan)))
    case Resume(p) => With(s, p, s.procs[p].(chan := None, pc := User))
    case Signal(p, sig) =>
      var x := s.procs[p];
      With(s, p, x.(killed := x.killed || Fatal(x, sig), pending := if sig == 0 then x.pending else x.pending + {sig},
                    run := if x.run.Sleeping? then Runnable else x.run))
    case Fault(p) => With(s, p, s.procs[p].(killed := true))
    case Catch(p, mask) => With(s, p, s.procs[p].(catches := mask - {SIGKILL}))
    case Take(p, sig) => With(s, p, s.procs[p].(pending := s.procs[p].pending - {sig}))
  }

  // ------------------------------------------------------------ invariant

  predicate Alive(r: Run) {
    r.Sleeping? || r.Runnable? || r.Running?
  }

  /** The parent of a slot is alive; live processes other than init, and zombies, have one. */
  predicate ParentOk(s: State, i: nat)
    requires i < |s.procs|
  {
    var x := s.procs[i];
    && (x.run.Unused? ==> x.parent.None?)
    && (x.parent.Some? ==> var q := x.parent.value; q < |s.procs| && q != i && Alive(s.procs[q].run))
    && (x.run.Embryo? && x.parent.Some? ==> s.procs[x.parent.value].pc == Parented(i))
    && (if i == INIT then Alive(x.run) && x.parent.None? else Alive(x.run) || x.run.Zombie? ==> x.parent.Some?)
  }

  /** A fork in progress owns an embryo. */
  predicate ForkOk(s: State, i: nat)
    requires i < |s.procs|
  {
    var x := s.procs[i];
    && (x.pc.Forking? ==> x.pc.np < |s.procs| && s.procs[x.pc.np].run.Embryo? && s.procs[x.pc.np].parent.None?)
    && (x.pc.Parented? ==> x.pc.np < |s.procs| && s.procs[x.pc.np].run.Embryo? && s.procs[x.pc.np].parent == Some(i))
    && (!Alive(x.run) ==> x.pc.User?)
  }

  /**
   A sleeper in waitpid has a matching child and no matching zombie child, and
   nothing has called it away. Whoever is not in a sleep has no channel.
   */
  predicate SleepOk(s: State, i: nat)
    requires i < |s.procs|
  {
    var x := s.procs[i];
    && (x.run.Sleeping? ==> x.pc.Waiting? || x.pc.Asleep?)
    && (x.run.Sleeping? && x.pc.Waiting? ==>
          x.chan == Some(OnProc(i)) && MustWait(s, i, x.pc.target))
    && (!x.pc.Waiting? && !x.pc.Asleep? ==> x.chan.None?)
  }

  predicate SameFork(s: State, i: nat, j: nat) {
    && i < |s.procs| && j < |s.procs|
    && (s.procs[i].pc.Forking? || s.procs[i].pc.Parented?) && (s.procs[j].pc.Forking? || s.procs[j].pc.Parented?)
    && s.procs[i].pc.np == s.procs[j].pc.np
  }

  predicate SamePid(s: State, i: nat, j: nat) {
    i < |s.procs| && j < |s.procs| && !s.procs[i].run.Unused? && !s.procs[j].run.Unused?
        && s.procs[i].pid == s.procs[j].pid
  }

  predicate PidOk(s: State, i: nat)
    requires i < |s.procs|
  {
    var x := s.procs[i];
    && (!x.run.Unused? ==> 0 < x.pid < s.nextpid)
    && (x.run.Zombie? ==> x.pid in s.exited && x.pid !in s.reaped)
    && (Alive(x.run) || x.run.Embryo? ==> x.pid !in s.exited)
  }

  predicate IsZombie(s: State, i: nat, pid: nat) {
    i < |s.procs| && s.procs[i].run.Zombie? && s.procs[i].pid == pid
  }

  /** Every exited pid is a zombie now or has been reaped, once. */
  ghost predicate HistoryOk(s: State) {
    && (forall i, j :: 0 <= i < j < |s.reaped| ==> s.reaped[i] != s.reaped[j])
    && (forall pid :: pid in s.reaped ==> pid in s.exited)
    && (forall pid :: pid in s.exited ==> pid < s.nextpid)
    && forall pid :: pid in s.exited && pid !in s.reaped ==> exists i: nat :: IsZombie(s, i, pid)
  }

  predicate SlotOk(s: State, i: nat)
    requires i < |s.procs|
  {
    ParentOk(s, i) && ForkOk(s, i) && SleepOk(s, i) && PidOk(s, i)
  }

  ghost predicate Inv(s: State) {
    && INIT < |s.procs| && (forall i: nat :: i < |s.procs| ==> SlotOk(s, i))
    && (forall i: nat, j: nat :: SameFork(s, i, j) ==> i == j)
    && (forall i: nat, j: nat :: SamePid(s, i, j) ==> i == j)
    && HistoryOk(s)
  }

  // ----------------------------------- steps that only schedule or signal

  predicate Plain(pc: Pc) {
    pc.User? || pc.Waiting? || pc.Asleep?
  }

  /** x and y differ only in how a live process runs, sleeps or is signalled. */
  predicate LocalTo(x: Proc, y: Proc) {
    && y.pid == x.pid && y.parent == x.parent
    && (y.run == x.run || (Alive(x.run) && Alive(y.run)))
    && (y.pc == x.pc || (Alive(x.run) && Plain(x.pc) && Plain(y.pc)))
  }

  ghost predicate Local(s: State, t: State) {
    && |t.procs| == |s.procs| && t.nextpid == s.nextpid && t.exited == s.exited && t.reaped == s.reaped
    && forall i: nat :: i < |s.procs| ==> LocalTo(s.procs[i], t.procs[i])
  }

  lemma LocalMatches(s: State, t: State, p: nat, target: int)
    requires Local(s, t)
    ensures NoZombie(s, p, target) <==> NoZombie(t, p, target)
    ensures NoKids(s, p, target) <==> NoKids(t, p, target)
  {
    forall c | 0 <= c < |s.procs|
      ensures Matches(s, p, target, c) == Matches(t, p, target, c) && s.procs[c].run.Zombie? == t.procs[c].run.Zombie?
    {
      assert LocalTo(s.procs[c], t.procs[c]);
    }
  }

  lemma LocalSlot(s: State, t: State, i: nat)
    requires Inv(s) && Local(s, t) && i < |s.procs|
    requires SleepOk(t, i)
    ensures SlotOk(t, i)
  {
    hide HistoryOk, NoZombie, NoKids, SleepOk;
    assert SlotOk(s, i) && LocalTo(s.procs[i], t.procs[i]);
    var x := s.procs[i];
    if x.parent.Some? {
      assert LocalTo(s.procs[x.parent.value], t.procs[x.parent.value]);
    }
    if x.pc.Forking? || x.pc.Parented? {
      assert LocalTo(s.procs[x.pc.np], t.procs[x.pc.np]);
    }
  }

  lemma LocalInv(s: State, t: State)
    requires Inv(s) && Local(s, t) && forall i: nat :: i < |s.procs| ==> SleepOk(t, i)
    ensures Inv(t)
  {
    hide SlotOk, SleepOk;
    forall i: nat | i < |t.procs|
      ensures SlotOk(t, i)
    {
      LocalSlot(s, t, i);
    }
    forall i: nat, j: nat | SameFork(t, i, j)
      ensures i == j
    {
      assert LocalTo(s.procs[i], t.procs[i]) && LocalTo(s.procs[j], t.procs[j]);
      assert SameFork(s, i, j);
    }
    forall i: nat, j: nat | SamePid(t, i, j)
      ensures i == j
    {
      assert LocalTo(s.procs[i], t.procs[i]) && LocalTo(s.procs[j], t.procs[j]);
      assert SamePid(s, i, j);
    }
    forall pid | pid in t.exited && pid !in t.reaped
      ensures exists i: nat :: IsZombie(t, i, pid)
    {
      var i: nat :| IsZombie(s, i, pid);
      assert LocalTo(s.procs[i], t.procs[i]);
      assert IsZombie(t, i, pid);
    }
  }

  predicate IsLocal(step: Step) {
    step.Pick? || step.Yield? || step.GiveUp? || step.NoHang? || step.WaitSleep? || step.Sleep? || step.Wake?
        || step.Resume?
    || step.Signal? || step.Fault? || step.Catch? || step.Take?
  }

  lemma LocalSteps(s: State, step: Step)
    requires Inv(s) && IsLocal(step) && Enabled(s, step)
    ensures Inv(Next(s, step))
  {
    hide HistoryOk, ParentOk, PidOk, NoZombie, NoKids;
    var t := Next(s, step);
    assert Local(s, t) by { StepIsLocal(s, step); }
    forall i: nat | i < |s.procs|
      ensures SleepOk(t, i)
    {
      assert SlotOk(s, i);
      if t.procs[i].pc.Waiting? {
        LocalMatches(s, t, i, t.procs[i].pc.target);
      }
    }
    LocalInv(s, t);
  }

  lemma StepIsLocal(s: State, step: Step)
    requires Inv(s) && IsLocal(step) && Enabled(s, step)
    ensures Local(s, Next(s, step))
  {
    hide HistoryOk, ParentOk, PidOk, NoZombie, NoKids;
    forall i: nat | i < |s.procs|
      ensures LocalTo(s.procs[i], Next(s, step).procs[i])
    {
      assert SlotOk(s, i);
    }
  }

  // ----------------------------------------------------------- fork steps

  /** Only p's pc and slot np changed; np is no parent, no zombie and no other fork's. */
  ghost predicate ForkStep(s: State, t: State, p: nat, np: nat) {
    && |t.procs| == |s.procs| && p < |s.procs| && np < |s.procs| && p != np
    && t.exited == s.exited && t.reaped == s.reaped && t.nextpid >= s.nextpid
    && Alive(s.procs[p].run) && t.procs[p] == s.procs[p].(pc := t.procs[p].pc) && !s.procs[p].run.Sleeping?
    && (s.procs[np].run.Unused? || s.procs[np].run.Embryo?) && !t.procs[np].run.Zombie? && !t.procs[np].run.Sleeping?
        && t.procs[np].pc.User?
    && (s.procs[np].parent == None || s.procs[np].parent == Some(p))
        && (t.procs[np].parent == None || t.procs[np].parent == Some(p))
    && (forall k: nat :: k < |s.procs| && k != p && k != np ==> t.procs[k] == s.procs[k])
    && (s.procs[p].pc.User? || s.procs[p].pc == Forking(np) || s.procs[p].pc == Parented(np))
    && (t.procs[p].pc.User? || t.procs[p].pc == Forking(np) || t.procs[p].pc == Parented(np))
    && (s.procs[p].pc.User? ==> s.procs[np].run.Unused?)
  }

  /** A waiter other than p sees the same children. */
  lemma ForkMatches(s: State, t: State, p: nat, np: nat, i: nat, target: int)
    requires ForkStep(s, t, p, np) && i != p
    ensures NoZombie(s, i, target) <==> NoZombie(t, i, target)
    ensures NoKids(s, i, target) <==> NoKids(t, i, target)
  {
    forall c | 0 <= c < |s.procs|
      ensures Matches(s, i, target, c) == Matches(t, i, target, c)
      ensures Matches(s, i, target, c) ==> s.procs[c].run.Zombie? == t.procs[c].run.Zombie?
    {
    }
  }

  lemma ForkOthers(s: State, t: State, p: nat, np: nat, k: nat)
    requires Inv(s) && ForkStep(s, t, p, np) && k < |s.procs| && k != p && k != np
    ensures SlotOk(t, k)
  {
    hide HistoryOk, NoZombie, NoKids;
    assert SlotOk(s, k) && SlotOk(s, p) && SlotOk(s, np);
    if s.procs[k].pc.Waiting? {
      ForkMatches(s, t, p, np, k, s.procs[k].pc.target);
    }
    NotShared(s, t, p, np, k);
  }

  /** np belongs to no fork but p's. */
  lemma NotShared(s: State, t: State, p: nat, np: nat, k: nat)
    requires Inv(s) && ForkStep(s, t, p, np) && k != p && k < |s.procs|
    ensures s.procs[k].pc != Forking(np) && s.procs[k].pc != Parented(np)
  {
    hide HistoryOk, NoZombie, NoKids, SleepOk, PidOk;
    assert SlotOk(s, np) && SlotOk(s, k);
    assert SameFork(s, p, k) ==> p == k;
  }

  lemma ForkPair(s: State, t: State, p: nat, np: nat, i: nat, j: nat)
    requires Inv(s) && ForkStep(s, t, p, np) && SameFork(t, i, j)
    ensures i == j
  {
    hide HistoryOk, SlotOk;
    if i != p {
      NotShared(s, t, p, np, i);
    }
    if j != p {
      NotShared(s, t, p, np, j);
    }
    assert i != p && j != p ==> SameFork(s, i, j);
  }

  lemma ForkInv(s: State, t: State, p: nat, np: nat)
    requires Inv(s) && ForkStep(s, t, p, np) && SlotOk(t, p) && SlotOk(t, np)
    requires if s.procs[np].run.Embryo? then t.procs[np].pid == s.procs[np].pid
        else t.procs[np].pid == s.nextpid < t.nextpid
    ensures Inv(t)
  {
    hide SlotOk, SameFork;
    forall i: nat | i < |t.procs|
      ensures SlotOk(t, i)
    {
      if i != p && i != np { ForkOthers(s, t, p, np, i); }
    }
    forall i: nat, j: nat | SameFork(t, i, j)
      ensures i == j
    {
      ForkPair(s, t, p, np, i, j);
    }
    forall i: nat, j: nat | SamePid(t, i, j)
      ensures i == j
    {
      assert i != np && j != np ==> SamePid(s, i, j);
      PidBound(s, i);
      PidBound(s, j);
      assert s.procs[np].run.Embryo? ==> SamePid(s, i, j);
    }
    forall pid | pid in t.exited && pid !in t.reaped
      ensures exists i: nat :: IsZombie(t, i, pid)
    {
      var i: nat :| IsZombie(s, i, pid);
      assert IsZombie(t, i, pid);
    }
  }

  lemma PidBound(s: State, i: nat)
    requires Inv(s) && i < |s.procs|
    ensures !s.procs[i].run.Unused? ==> s.procs[i].pid < s.nextpid
  {
    assert SlotOk(s, i);
  }

  lemma ForkSteps(s: State, step: Step)
    requires Inv(s) && Enabled(s, step) && (step.AllocProc? || step.ForkFail? || step.SetParent? || step.ForkDone?)
    ensures Inv(Next(s, step))
  {
    hide HistoryOk, SlotOk, SameFork, SamePid, Next, ForkStep;
    var p, t := step.p, Next(s, step);
    var np := if step.AllocProc? then step.np else s.procs[p].pc.np;
    StepIsFork(s, step, np);
    StepSlots(s, step, np);
    ForkInv(s, t, p, np);
  }

  lemma StepIsFork(s: State, step: Step, np: nat)
    requires Inv(s) && Enabled(s, step) && (step.AllocProc? || step.ForkFail? || step.SetParent? || step.ForkDone?)
    requires np == if step.AllocProc? then step.np else s.procs[step.p].pc.np
    ensures np < |s.procs| && ForkStep(s, Next(s, step), step.p, np)
    ensures var t := Next(s, step);
            if s.procs[np].run.Embryo? then t.procs[np].pid == s.procs[np].pid
                else t.procs[np].pid == s.nextpid < t.nextpid
  {
    hide HistoryOk, NoZombie, NoKids, SameFork, SamePid;
    assert SlotOk(s, step.p) && SlotOk(s, np);
  }

  lemma StepSlots(s: State, step: Step, np: nat)
    requires Inv(s) && Enabled(s, step) && (step.AllocProc? || step.ForkFail? || step.SetParent? || step.ForkDone?)
    requires np == if step.AllocProc? then step.np else s.procs[step.p].pc.np
    ensures np < |s.procs| && SlotOk(Next(s, step), step.p) && SlotOk(Next(s, step), np)
  {
    hide HistoryOk, NoZombie, NoKids, SameFork, SamePid;
    assert SlotOk(s, step.p) && SlotOk(s, np) && SlotOk(s, INIT);
    FreshPid(s);
  }

  lemma FreshPid(s: State)
    requires Inv(s)
    ensures s.nextpid !in s.exited
  {
  }

  // ----------------------------------------------------------------- exit

  lemma {:induction false} ZombieChildHas(procs: seq<Proc>, p: nat, n: nat, c: nat)
    requires c < n <= |procs| && procs[c].parent == Some(p) && procs[c].run.Zombie?
    ensures ZombieChild(procs, p, n)
  {
    if c < n - 1 {
      ZombieChildHas(procs, p, n - 1, c);
    }
  }

  /** What exit leaves of another slot. */
  predicate Passed(s: State, p: nat, t: State, i: nat)
    requires i < |s.procs| == |t.procs| && p < |s.procs|
  {
    var x, y := s.procs[i], t.procs[i];
    && y == x.(run := y.run, parent := if x.parent == Some(p) then Some(INIT) else x.parent)
    && (y.run == x.run || (x.run.Sleeping? && y.run.Runnable?))
    && (x.run.Sleeping? && x.chan.Some? && x.chan == ParentChan(s.procs[p]) ==> !y.run.Sleeping?)
  }

  /** Some zombie child of p is handed to init. */
  predicate HandsZombie(s: State, p: nat)
    requires p < |s.procs|
  {
    ZombieChild(WakeAll(s.procs, ParentChan(s.procs[p])), p, |s.procs|)
  }

  lemma ExitAt(s: State, p: nat, i: nat)
    requires p < |s.procs| && p != INIT && i < |s.procs| && i != p
    ensures |Exited(s, p).procs| == |s.procs|
    ensures Exited(s, p).procs[i] == Handed(Woken(s.procs[i], ParentChan(s.procs[p])), p, true, HandsZombie(s, p))
  {
    hide WakeAll, HandOver, Handed, Woken, ZombieChild;
  }

  lemma ExitPasses(s: State, p: nat, i: nat)
    requires p < |s.procs| && p != INIT && i < |s.procs| && i != p
    ensures |Exited(s, p).procs| == |s.procs| && Passed(s, p, Exited(s, p), i)
  {
    hide Exited, HandsZombie;
    ExitAt(s, p, i);
  }

  /** If a zombie child is handed to init, init does not stay asleep in its wait. */
  lemma ExitWakesInit(s: State, p: nat, c: nat)
    requires p < |s.procs| && p != INIT && c < |s.procs| && s.procs[c].parent == Some(p) && s.procs[c].run.Zombie?
    ensures |Exited(s, p).procs| == |s.procs|
    ensures !(Exited(s, p).procs[INIT].run.Sleeping? && s.procs[INIT].chan == Some(OnProc(INIT)))
  {
    hide Exited;
    ZombieChildHas(WakeAll(s.procs, ParentChan(s.procs[p])), p, |s.procs|, c);
    ExitAt(s, p, INIT);
  }

  lemma ExitSelf(s: State, p: nat)
    requires Inv(s) && Enabled(s, Exit(p))
    ensures var t := Exited(s, p);
            |t.procs| == |s.procs| && t.procs[p] == s.procs[p].(run := Zombie) && s.procs[p].parent.Some?
  {
    hide HistoryOk, NoZombie, NoKids, SameFork, SamePid, ZombieChild;
    assert SlotOk(s, p);
  }

  lemma ExitParent(s: State, p: nat, i: nat)
    requires Inv(s) && Enabled(s, Exit(p)) && i < |s.procs|
    ensures |Exited(s, p).procs| == |s.procs| && ParentOk(Exited(s, p), i) && ForkOk(Exited(s, p), i)
  {
    hide HistoryOk, NoZombie, NoKids, SameFork, SamePid, Exited, SleepOk, PidOk;
    var t, x := Exited(s, p), s.procs[i];
    ExitSelf(s, p);
    assert SlotOk(s, i) && SlotOk(s, p) && SlotOk(s, INIT);
    ExitPasses(s, p, INIT);
    if i != p {
      ExitPasses(s, p, i);
    }
    if x.parent.Some? && x.parent.value != p {
      ExitPasses(s, p, x.parent.value);
    }
    if (x.pc.Forking? || x.pc.Parented?) && x.pc.np != p {
      ExitPasses(s, p, x.pc.np);
    }
  }

  /** A sleeper in waitpid still has no zombie child that it waits for. */
  lemma ExitNoZombie(s: State, p: nat, i: nat, c: nat)
    requires Inv(s) && Enabled(s, Exit(p)) && i < |s.procs| && i != p && c < |s.procs|
    requires |Exited(s, p).procs| == |s.procs|
    requires Exited(s, p).procs[i].run.Sleeping? && s.procs[i].pc.Waiting? && Passed(s, p, Exited(s, p), i)
    requires Matches(Exited(s, p), i, s.procs[i].pc.target, c)
    ensures !Exited(s, p).procs[c].run.Zombie?
  {
    hide HistoryOk, NoKids, SameFork, SamePid, Exited, ForkOk, PidOk;
    var t := Exited(s, p);
    assert SlotOk(s, i) && SlotOk(s, p);
    ExitSelf(s, p);
    if c != p {
      ExitPasses(s, p, c);
      if s.procs[c].run.Zombie? && s.procs[c].parent == Some(p) {
        ExitWakesInit(s, p, c);
      } else if s.procs[c].parent != Some(p) {
        assert Matches(s, i, s.procs[i].pc.target, c);
      }
    }
  }

  lemma ExitSleep(s: State, p: nat, i: nat)
    requires Inv(s) && Enabled(s, Exit(p)) && i < |s.procs|
    ensures |Exited(s, p).procs| == |s.procs| && SleepOk(Exited(s, p), i)
  {
    hide HistoryOk, SameFork, SamePid, Exited, ForkOk, PidOk, ParentOk;
    var t := Exited(s, p);
    ExitSelf(s, p);
    assert SlotOk(s, i);
    if i != p {
      ExitPasses(s, p, i);
      if t.procs[i].run.Sleeping? && s.procs[i].pc.Waiting? {
        var target := s.procs[i].pc.target;
        forall c: nat | c < |t.procs| && Matches(t, i, target, c)
          ensures !t.procs[c].run.Zombie?
        {
          ExitNoZombie(s, p, i, c);
        }
        var c :| 0 <= c < |s.procs| && Matches(s, i, target, c);
        if c != p { ExitPasses(s, p, c); }
        assert Matches(t, i, target, c);
      }
    }
  }

  lemma ExitPid(s: State, p: nat, i: nat)
    requires Inv(s) && Enabled(s, Exit(p)) && i < |s.procs|
    ensures |Exited(s, p).procs| == |s.procs| && PidOk(Exited(s, p), i)
  {
    hide SameFork, ForkOk, ParentOk, SleepOk, HandOver, WakeAll;
    ExitSelf(s, p);
    assert SlotOk(s, i) && SlotOk(s, p);
    if i != p {
      ExitPasses(s, p, i);
      assert SamePid(s, i, p) ==> i == p;
    }
  }

  lemma ExitPairs(s: State, p: nat, i: nat, j: nat)
    requires Inv(s) && Enabled(s, Exit(p)) && (SameFork(Exited(s, p), i, j) || SamePid(Exited(s, p), i, j))
    ensures i == j
  {
    hide HistoryOk, SlotOk, Exited;
    ExitSelf(s, p);
    if i != p { ExitPasses(s, p, i); }
    if j != p { ExitPasses(s, p, j); }
    assert SameFork(s, i, j) || SamePid(s, i, j);
  }

  lemma ExitInv(s: State, p: nat)
    requires Inv(s) && Enabled(s, Exit(p))
    ensures Inv(Exited(s, p))
  {
    hide ForkOk, ParentOk, SleepOk, PidOk, Exited, HistoryOk, SameFork, SamePid;
    var t := Exited(s, p);
    ExitSelf(s, p);
    forall i: nat | i < |t.procs|
      ensures SlotOk(t, i)
    {
      ExitParent(s, p, i);
      ExitSleep(s, p, i);
      ExitPid(s, p, i);
    }
    forall i: nat, j: nat | SameFork(t, i, j) || SamePid(t, i, j)
      ensures i == j
    {
      ExitPairs(s, p, i, j);
    }
    ExitHistory(s, p);
  }

  lemma ExitHistory(s: State, p: nat)
    requires Inv(s) && Enabled(s, Exit(p))
    ensures HistoryOk(Exited(s, p))
  {
    hide ForkOk, ParentOk, SleepOk, HandOver, WakeAll;
    var t := Exited(s, p);
    ExitSelf(s, p);
    assert SlotOk(s, p);
    forall pid | pid in t.exited && pid !in t.reaped
      ensures exists i: nat :: IsZombie(t, i, pid)
    {
      if pid == s.procs[p].pid {
        assert IsZombie(t, p, pid);
      } else {
        var i: nat :| IsZombie(s, i, pid);
        ExitPasses(s, p, i);
        assert IsZombie(t, i, pid);
      }
    }
  }

  // ----------------------------------------------------------------- reap

  lemma ReapSlot(s: State, p: nat, target: int, c: nat, i: nat)
    requires Inv(s) && Enabled(s, Reap(p, target, c)) && i < |s.procs|
    ensures SlotOk(Next(s, Reap(p, target, c)), i)
  {
    hide HistoryOk, NoZombie, NoKids, SameFork;
    var t := Next(s, Reap(p, target, c));
    assert SlotOk(s, i) && SlotOk(s, c) && SlotOk(s, p);
    assert SamePid(s, i, c) ==> i == c;
    if i != p && i != c && s.procs[i].pc.Waiting? {
      ReapMatches(s, p, target, c, i, s.procs[i].pc.target);
    }
  }

  lemma ReapMatches(s: State, p: nat, target: int, c: nat, i: nat, wanted: int)
    requires Enabled(s, Reap(p, target, c)) && i != p && p != c
    ensures var t := Next(s, Reap(p, target, c));
            (NoZombie(s, i, wanted) ==> NoZombie(t, i, wanted)) && (NoKids(s, i, wanted) <==> NoKids(t, i, wanted))
  {
    var t := Next(s, Reap(p, target, c));
    forall k | 0 <= k < |s.procs|
      ensures Matches(t, i, wanted, k) == Matches(s, i, wanted, k)
    {
    }
  }

  /** The reaped pid had exited and was not reaped before. */
  lemma ReapHistory(s: State, p: nat, target: int, c: nat)
    requires Inv(s) && Enabled(s, Reap(p, target, c))
    ensures HistoryOk(Next(s, Reap(p, target, c)))
    ensures s.procs[c].pid in s.exited && s.procs[c].pid !in s.reaped
  {
    hide ForkOk, SleepOk, ParentOk, SameFork;
    var t := Next(s, Reap(p, target, c));
    assert SlotOk(s, c);
    forall pid | pid in t.exited && pid !in t.reaped
      ensures exists i: nat :: IsZombie(t, i, pid)
    {
      assert s.procs[c].pid in t.reaped;
      var i: nat :| IsZombie(s, i, pid);
      assert IsZombie(t, i, pid);
    }
  }

  lemma ReapInv(s: State, p: nat, target: int, c: nat)
    requires Inv(s) && Enabled(s, Reap(p, target, c))
    ensures Inv(Next(s, Reap(p, target, c)))
  {
    hide SlotOk, HistoryOk;
    var t := Next(s, Reap(p, target, c));
    forall i: nat | i < |t.procs|
      ensures SlotOk(t, i)
    {
      ReapSlot(s, p, target, c, i);
    }
    forall i: nat, j: nat | SameFork(t, i, j) || SamePid(t, i, j)
      ensures i == j
    {
      assert SameFork(t, i, j) ==> SameFork(s, i, j);
      assert SamePid(t, i, j) ==> SamePid(s, i, j);
    }
    ReapHistory(s, p, target, c);
  }

  lemma StepInv(s: State, step: Step)
    requires Inv(s) && Enabled(s, step)
    ensures Inv(Next(s, step))
  {
    hide Inv, Enabled, Exited;
    match step {
      case AllocProc(_, _) => ForkSteps(s, step);
      case ForkFail(_) => ForkSteps(s, step);
      case SetParent(_) => ForkSteps(s, step);
      case ForkDone(_) => ForkSteps(s, step);
      case Exit(p) => ExitInv(s, p);
      case Reap(p, target, c) => ReapInv(s, p, target, c);
      case _ => LocalSteps(s, step);
    }
  }

  // ----------------------------------------------------------- whole runs

  ghost predicate Reaches(s: State, steps: seq<Step>, t: State)
    decreases |steps|
  {
    if steps == [] then s == t else Enabled(s, steps[0]) && Reaches(Next(s, steps[0]), steps[1..], t)
  }

  /** After userinit: init alone, with pid 1. */
  predicate Start(s: State) {
    && INIT < |s.procs| && s.procs[INIT] == Proc(Runnable, 1, None, None, false, {}, {}, User)
    && (forall i :: 0 < i < |s.procs| ==> s.procs[i] == Proc(Unused, 0, None, None, false, {}, {}, User))
    && s.nextpid == 2 && s.exited == {} && s.reaped == []
  }

  lemma StartInv(s: State)
    requires Start(s)
    ensures Inv(s)
  {
    forall i: nat | i < |s.procs|
      ensures SlotOk(s, i)
    {
    }
  }

  lemma {:induction false} RunInv(s: State, steps: seq<Step>, t: State)
    requires Inv(s) && Reaches(s, steps, t)
    ensures Inv(t)
    decreases |steps|
  {
    hide Inv, Enabled, Next;
    if steps != [] {
      StepInv(s, steps[0]);
      RunInv(Next(s, steps[0]), steps[1..], t);
    }
  }

  predicate IsChild(s: State, p: nat, c: nat)
    requires c < |s.procs|
  {
    s.procs[c].parent == Some(p)
  }

  /** -1 asks for any child, another number for the one with that pid. */
  predicate Wanted(s: State, target: int, c: nat)
    requires c < |s.procs|
  {
    target != -1 ==> s.procs[c].pid == target
  }

  /**
   No process sleeps in waitpid while a child it waits for is a zombie, or killed, or
   with a claimed signal; and it always has a child to wait for.
   */
  lemma NoMissedExit(s: State, steps: seq<Step>, t: State, p: nat)
    requires Start(s) && Reaches(s, steps, t) && p < |t.procs| && t.procs[p].run.Sleeping? && t.procs[p].pc.Waiting?
    ensures forall c: nat :: c < |t.procs| && IsChild(t, p, c) && Wanted(t, t.procs[p].pc.target, c) ==>
              !t.procs[c].run.Zombie?
    ensures exists c: nat :: c < |t.procs| && IsChild(t, p, c) && Wanted(t, t.procs[p].pc.target, c)
    ensures !t.procs[p].killed && !Interrupted(t.procs[p])
  {
    hide Start, Reaches, HistoryOk, ParentOk, ForkOk, PidOk;
    StartInv(s);
    RunInv(s, steps, t);
    assert SlotOk(t, p);
    var target := t.procs[p].pc.target;
    assert forall c: nat :: c < |t.procs| ==> (Matches(t, p, target, c) <==> IsChild(t, p, c) && Wanted(t, target, c));
  }

  /** wakeup(chan) leaves nobody asleep on chan, and touches nobody else. In every run only a sleep has a channel. */
  lemma WakeupWakes(s: State, steps: seq<Step>, t: State, chan: Chan, i: nat)
    requires Start(s) && Reaches(s, steps, t) && i < |t.procs|
    ensures var u := Next(t, Wake(chan));
            && |u.procs| == |t.procs| && (u.procs[i].run.Sleeping? ==> u.procs[i].chan != Some(chan))
            && (u.procs[i] != t.procs[i] ==> t.procs[i].run.Sleeping? && t.procs[i].chan == Some(chan))
            && (u.procs[i] != t.procs[i] ==> u.procs[i] == t.procs[i].(run := Runnable))
    ensures t.procs[i].chan.Some? ==> t.procs[i].pc.Waiting? || t.procs[i].pc.Asleep?
  {
    hide Start, Reaches, HistoryOk, ParentOk, ForkOk, PidOk;
    StartInv(s);
    RunInv(s, steps, t);
    assert SlotOk(t, i);
  }

  /** The parent of a process is neither a zombie nor a free slot, and every zombie has a parent to reap it. */
  lemma NoOrphans(s: State, steps: seq<Step>, t: State, c: nat)
    requires Start(s) && Reaches(s, steps, t) && c < |t.procs|
    ensures t.procs[c].parent.Some? ==>
        t.procs[c].parent.value < |t.procs| && Alive(t.procs[t.procs[c].parent.value].run)
    ensures t.procs[c].run.Zombie? || (Alive(t.procs[c].run) && c != INIT) ==> t.procs[c].parent.Some?
  {
    hide Start, Reaches, HistoryOk, SleepOk, ForkOk, PidOk;
    StartInv(s);
    RunInv(s, steps, t);
    assert SlotOk(t, c);
  }

  /** Every pid that exited is a zombie's or has been reaped, never both, and none is reaped twice. */
  lemma ReapedOnce(s: State, steps: seq<Step>, t: State)
    requires Start(s) && Reaches(s, steps, t)
    ensures forall i, j :: 0 <= i < j < |t.reaped| ==> t.reaped[i] != t.reaped[j]
    ensures forall pid :: pid in t.exited <==> pid in t.reaped || exists i: nat :: IsZombie(t, i, pid)
    ensures forall i: nat, pid :: IsZombie(t, i, pid) ==> pid !in t.reaped
  {
    hide Start, Reaches, SleepOk, ForkOk, ParentOk;
    StartInv(s);
    RunInv(s, steps, t);
    forall i: nat, pid | IsZombie(t, i, pid)
      ensures pid in t.exited && pid !in t.reaped
    {
      assert SlotOk(t, i);
    }
  }
}
