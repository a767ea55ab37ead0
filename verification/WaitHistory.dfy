/**
 The killed flag and waitpid's results (kern/proc.c), told from the list of steps
 alone: who was signalled, which fork failed, who was reaped.
 */
module WaitHistory {
  import opened Basics
  import opened WaitExit

  /**
   What the steps say, slot by slot: killed since it was last reaped; the signals
   raised and claimed; the slot each fork took; and the slots that were killed in
   the hands of a fork that failed.
   */
  datatype History = History(doomed: set<nat>, raised: map<nat, set<nat>>, claims: map<nat, set<nat>>,
                             forks: map<nat, nat>, stale: set<nat>)

  function Held(m: map<nat, set<nat>>, i: nat): set<nat> {
    if i in m then m[i] else {}
  }

  /** Nothing but SIGKILL kills init; the others die of a signal they have not claimed. */
  predicate Deadly(h: History, p: nat, sig: nat) {
    sig == SIGKILL || (sig != 0 && p != INIT && sig !in Held(h.claims, p))
  }

  function Told(h: History, step: Step): History {
    match step
    case AllocProc(p, np) => h.(forks := h.forks[p := np], raised := h.raised[np := {}], claims := h.claims[np := {}])
    case ForkFail(p) => if p in h.forks && h.forks[p] in h.doomed then h.(stale := h.stale + {h.forks[p]}) else h
    case Reap(p, target, c) =>
      History(h.doomed - {c}, h.raised[c := {}], h.claims[c := {}], h.forks, h.stale - {c})
    case Signal(p, sig) =>
      h.(doomed := if Deadly(h, p, sig) then h.doomed + {p} else h.doomed,
         raised := if sig == 0 then h.raised else h.raised[p := Held(h.raised, p) + {sig}])
    case Fault(p) => h.(doomed := h.doomed + {p})
    case Catch(p, mask) => h.(claims := h.claims[p := mask - {SIGKILL}])
    case Take(p, sig) => h.(raised := h.raised[p := Held(h.raised, p) - {sig}])
    case _ => h
  }

  function StoryFrom(h: History, steps: seq<Step>): History
    decreases |steps|
  {
    if steps == [] then h else StoryFrom(Told(h, steps[0]), steps[1..])
  }

  function Story(steps: seq<Step>): History {
    StoryFrom(History({}, map[], map[], map[], {}), steps)
  }

  // ----------------------------------------------- the state agrees with it

  predicate SlotRecalls(s: State, h: History, i: nat)
    requires i < |s.procs|
  {
    var x := s.procs[i];
    && (x.killed <==> i in h.doomed) && x.pending == Held(h.raised, i) && x.catches == Held(h.claims, i)
    && (x.pc.Forking? ==> i in h.forks && h.forks[i] == x.pc.np)
    && (x.run.Unused? ==> (x.killed <==> i in h.stale))
    && (x.pid == 1 <==> i == INIT)
  }

  ghost predicate Recalls(s: State, h: History) {
    h.stale <= h.doomed && s.nextpid > 1 && forall i: nat :: i < |s.procs| ==> SlotRecalls(s, h, i)
  }

  lemma StartRecalls(s: State)
    requires Start(s)
    ensures Recalls(s, Story([]))
  {
  }

  /** exit leaves signals and pids alone. */
  lemma ExitRecalls(s: State, h: History, p: nat, i: nat)
    requires Inv(s) && Recalls(s, h) && Enabled(s, Exit(p)) && i < |s.procs|
    ensures |Exited(s, p).procs| == |s.procs| && SlotRecalls(Exited(s, p), h, i)
  {
    hide HistoryOk, SlotOk, Exited;
    ExitSelf(s, p);
    assert SlotRecalls(s, h, i);
    if i != p {
      ExitPasses(s, p, i);
    }
  }

  predicate IsFork(step: Step) {
    step.AllocProc? || step.ForkFail? || step.SetParent? || step.ForkDone?
  }

  predicate IsSignal(step: Step) {
    step.Signal? || step.Fault? || step.Catch? || step.Take?
  }

  lemma ForkRecalls(s: State, h: History, step: Step, i: nat)
    requires Inv(s) && Recalls(s, h) && Enabled(s, step) && IsFork(step) && i < |s.procs|
    ensures SlotRecalls(Next(s, step), Told(h, step), i)
  {
    hide Inv, Enabled, SlotRecalls, Next;
    if step.AllocProc? {
      AllocRecalls(s, h, step, i);
    } else {
      ForkingRecalls(s, h, step, i);
    }
  }

  lemma AllocRecalls(s: State, h: History, step: Step, i: nat)
    requires Inv(s) && Recalls(s, h) && Enabled(s, step) && step.AllocProc? && i < |s.procs|
    ensures SlotRecalls(Next(s, step), Told(h, step), i)
  {
    hide HistoryOk, SameFork, SamePid, SlotOk;
    assert SlotRecalls(s, h, i);
    InitStays(s);
    assert SlotOk(s, step.np);
    IdleSlot(s, step.np);
  }

  /** A free slot's process is nowhere. */
  lemma IdleSlot(s: State, i: nat)
    requires i < |s.procs| && SlotOk(s, i)
    ensures s.procs[i].run.Unused? ==> s.procs[i].pc.User?
    ensures s.procs[i].pc.Forking? ==> s.procs[i].pc.np < |s.procs| && s.procs[s.procs[i].pc.np].run.Embryo?
  {
    hide SleepOk, PidOk, ParentOk;
  }

  lemma ForkingRecalls(s: State, h: History, step: Step, i: nat)
    requires Inv(s) && Recalls(s, h) && Enabled(s, step) && IsFork(step) && !step.AllocProc? && i < |s.procs|
    ensures SlotRecalls(Next(s, step), Told(h, step), i)
  {
    hide HistoryOk, SameFork, SamePid, SlotOk, InWait, MustWait, NoZombie, NoKids, Exited, WakeAll, Fatal;
    assert SlotRecalls(s, h, i) && SlotRecalls(s, h, step.p);
    assert SlotOk(s, step.p);
    IdleSlot(s, step.p);
  }

  lemma ReapRecalls(s: State, h: History, step: Step, i: nat)
    requires Inv(s) && Recalls(s, h) && Enabled(s, step) && step.Reap? && i < |s.procs|
    ensures SlotRecalls(Next(s, step), Told(h, step), i)
  {
    hide HistoryOk, SameFork, SamePid, PidOk, SleepOk;
    assert SlotRecalls(s, h, i) && SlotOk(s, step.c);
    InitStays(s);
  }

  lemma SignalRecalls(s: State, h: History, step: Step, i: nat)
    requires Recalls(s, h) && Enabled(s, step) && IsSignal(step) && i < |s.procs|
    ensures SlotRecalls(Next(s, step), Told(h, step), i)
  {
    assert SlotRecalls(s, h, i);
  }

  lemma QuietRecalls(s: State, h: History, step: Step, i: nat)
    requires Recalls(s, h) && Enabled(s, step) && i < |s.procs|
    requires !IsFork(step) && !IsSignal(step) && !step.Reap? && !step.Exit?
    ensures |Next(s, step).procs| == |s.procs| && SlotRecalls(Next(s, step), h, i)
  {
    hide NoZombie, NoKids;
    assert SlotRecalls(s, h, i);
  }

  lemma InitStays(s: State)
    requires Inv(s)
    ensures INIT < |s.procs| && Alive(s.procs[INIT].run)
  {
    hide HistoryOk, SameFork, SamePid;
    assert SlotOk(s, INIT);
  }

  lemma StepRecalls(s: State, h: History, step: Step)
    requires Inv(s) && Recalls(s, h) && Enabled(s, step)
    ensures Recalls(Next(s, step), Told(h, step))
  {
    hide Inv, Enabled, SlotRecalls, Exited;
    var t := Next(s, step);
    SameSize(s, step);
    StaleRecalls(s, h, step);
    forall i: nat | i < |t.procs|
      ensures SlotRecalls(t, Told(h, step), i)
    {
      if step.Exit? {
        ExitRecalls(s, h, step.p, i);
      } else if IsFork(step) {
        ForkRecalls(s, h, step, i);
      } else if step.Reap? {
        ReapRecalls(s, h, step, i);
      } else if IsSignal(step) {
        SignalRecalls(s, h, step, i);
      } else {
        QuietRecalls(s, h, step, i);
      }
    }
  }

  lemma SameSize(s: State, step: Step)
    requires Inv(s) && Enabled(s, step)
    ensures |Next(s, step).procs| == |s.procs| && Next(s, step).nextpid >= s.nextpid
  {
    hide Inv, Exited;
    if step.Exit? {
      ExitSelf(s, step.p);
      ExitPidNext(s, step.p);
    }
  }

  lemma ExitPidNext(s: State, p: nat)
    requires p < |s.procs| && p != INIT
    ensures Exited(s, p).nextpid == s.nextpid
  {
  }

  lemma StaleRecalls(s: State, h: History, step: Step)
    requires h.stale <= h.doomed
    ensures Told(h, step).stale <= Told(h, step).doomed
  {
  }

  lemma {:induction false} RunRecalls(s: State, h: History, steps: seq<Step>, t: State)
    requires Inv(s) && Recalls(s, h) && Reaches(s, steps, t)
    ensures Inv(t) && Recalls(t, StoryFrom(h, steps))
    decreases |steps|
  {
    hide Inv, Enabled, Next, Recalls, Told;
    if steps != [] {
      StepInv(s, steps[0]);
      StepRecalls(s, h, steps[0]);
      RunRecalls(Next(s, steps[0]), Told(h, steps[0]), steps[1..], t);
    }
  }

  lemma StoryHolds(s: State, steps: seq<Step>, t: State)
    requires Start(s) && Reaches(s, steps, t)
    ensures Inv(t) && Recalls(t, Story(steps))
  {
    hide Inv, Recalls, Start, Reaches;
    StartInv(s);
    StartRecalls(s);
    RunRecalls(s, History({}, map[], map[], map[], {}), steps, t);
  }

  // --------------------------------------------------------------- results

  /** In every run a slot's killed flag and signals are what was done to it since it was last reaped. */
  lemma SignalsAreStory(s: State, steps: seq<Step>, t: State, i: nat)
    requires Start(s) && Reaches(s, steps, t) && i < |t.procs|
    ensures t.procs[i].killed <==> i in Story(steps).doomed
    ensures t.procs[i].pending == Held(Story(steps).raised, i) && t.procs[i].catches == Held(Story(steps).claims, i)
  {
    hide Start, Reaches, Inv, Story;
    StoryHolds(s, steps, t);
    assert SlotRecalls(t, Story(steps), i);
  }

  /** A slot that fork takes starts without signals, but killed if it was when another fork failed and left it. */
  lemma FreshSlot(s: State, steps: seq<Step>, t: State, p: nat, np: nat)
    requires Start(s) && Reaches(s, steps, t) && Enabled(t, AllocProc(p, np))
    ensures var x := Next(t, AllocProc(p, np)).procs[np];
            && (x.killed <==> np in Story(steps).stale)
            && x.pending == {} && x.catches == {} && x.parent == None && x.pid == t.nextpid
  {
    hide Start, Reaches, HistoryOk, SameFork, SamePid, Story;
    StoryHolds(s, steps, t);
    assert SlotRecalls(t, Story(steps), np) && SlotOk(t, np);
  }

  /** As long as no fork fails, no process is born killed. */
  lemma {:induction false} NoFailureNoStale(h: History, steps: seq<Step>)
    requires h.stale == {} && forall i :: 0 <= i < |steps| ==> !steps[i].ForkFail?
    ensures StoryFrom(h, steps).stale == {}
    decreases |steps|
  {
    if steps != [] {
      assert !steps[0].ForkFail?;
      NoFailureNoStale(Told(h, steps[0]), steps[1..]);
    }
  }

  /** The failure: a process killed before it ever ran, because an earlier one was. */
  lemma BornKilled(s: State)
    requires Start(s) && |s.procs| > 1
    ensures var first := [Pick(INIT), AllocProc(INIT, 1), Signal(1, SIGKILL), ForkFail(INIT)];
            exists t :: Reaches(s, first, t) && Enabled(t, AllocProc(INIT, 1)) &&
                        var x := Next(t, AllocProc(INIT, 1)).procs[1]; x.killed && x.pid == 3
  {
    hide Reaches, Enabled, Next;
    var steps := [Pick(INIT), AllocProc(INIT, 1), Signal(1, SIGKILL), ForkFail(INIT)];
    var b := ForkBegun(s);
    var d := ForkFailed(b);
    OneMore(Next(b, steps[2]), steps, 3, d);
    OneMore(b, steps, 2, d);
    OneMore(Next(s, steps[0]), steps, 1, d);
    OneMore(s, steps, 0, d);
    assert steps[0..] == steps;
  }

  /** init forks for the first time. */
  lemma ForkBegun(s: State) returns (t: State)
    requires Start(s) && |s.procs| > 1
    ensures Enabled(s, Pick(INIT)) && Enabled(Next(s, Pick(INIT)), AllocProc(INIT, 1))
    ensures t == Next(Next(s, Pick(INIT)), AllocProc(INIT, 1))
    ensures |t.procs| == |s.procs| && t.nextpid == 3 && t.procs[1].run.Embryo?
    ensures t.procs[INIT].run.Running? && t.procs[INIT].pc == Forking(1)
  {
    t := Next(Next(s, Pick(INIT)), AllocProc(INIT, 1));
  }

  /** The child is killed before the fork fails, and the next fork takes the slot. */
  lemma ForkFailed(s: State) returns (t: State)
    requires |s.procs| > 1 && s.nextpid == 3 && s.procs[1].run.Embryo?
    requires s.procs[INIT].run.Running? && s.procs[INIT].pc == Forking(1)
    ensures Enabled(s, Signal(1, SIGKILL)) && Enabled(Next(s, Signal(1, SIGKILL)), ForkFail(INIT))
    ensures t == Next(Next(s, Signal(1, SIGKILL)), ForkFail(INIT)) && Enabled(t, AllocProc(INIT, 1))
    ensures var x := Next(t, AllocProc(INIT, 1)).procs[1]; x.killed && x.pid == 3
  {
    t := Next(Next(s, Signal(1, SIGKILL)), ForkFail(INIT));
  }

  lemma OneMore(s: State, steps: seq<Step>, k: nat, t: State)
    requires k < |steps| && Enabled(s, steps[k])
    requires if k + 1 == |steps| then t == Next(s, steps[k]) else Reaches(Next(s, steps[k]), steps[k + 1..], t)
    ensures Reaches(s, steps[k..], t)
  {
    hide Enabled, Next;
    assert steps[k..][1..] == steps[k + 1..];
  }

  /** waitpid returns -1 only for a bad target, or without such a child, killed, or with a claimed signal. */
  lemma GiveUpMeans(s: State, steps: seq<Step>, t: State, p: nat, target: int)
    requires Start(s) && Reaches(s, steps, t) && Enabled(t, GiveUp(p, target)) && !BadTarget(target)
    ensures forall c: nat :: c < |t.procs| && IsChild(t, p, c) && Wanted(t, target, c) ==> !t.procs[c].run.Zombie?
    ensures var h := Story(steps);
            || (forall c: nat :: c < |t.procs| && IsChild(t, p, c) ==> !Wanted(t, target, c)) || p in h.doomed
            || exists sig :: sig in Held(h.raised, p) && sig in Held(h.claims, p)
  {
    hide Start, Reaches, Inv, Story;
    SignalsAreStory(s, steps, t, p);
    var x := t.procs[p];
    assert forall c: nat :: c < |t.procs| ==> (Matches(t, p, target, c) <==> IsChild(t, p, c) && Wanted(t, target, c));
    if Interrupted(x) {
      var sig :| sig in x.pending * x.catches;
    }
  }

  /** waitpid returns the pid of a child of the caller that has exited, asked for and not returned before. */
  lemma ReapMeans(s: State, steps: seq<Step>, t: State, p: nat, target: int, c: nat)
    requires Start(s) && Reaches(s, steps, t) && Enabled(t, Reap(p, target, c))
    ensures var pid := t.procs[c].pid;
            && 0 < pid && (target == -1 || target == pid) && t.procs[c].parent == Some(p)
            && pid in t.exited && pid !in t.reaped && Next(t, Reap(p, target, c)).reaped == t.reaped + [pid]
            && !Next(t, Reap(p, target, c)).procs[c].killed
  {
    hide Start, Reaches, SameFork, SamePid;
    StoryHolds(s, steps, t);
    assert SlotOk(t, c) && SlotOk(t, p);
  }

  /** waitpid has just one thing to do: return a child, return -1, or sleep; nohang only turns the sleep into 0. */
  lemma WaitDecides(s: State, p: nat, target: int)
    requires InWait(s, p, target)
    ensures (exists c: nat :: Enabled(s, Reap(p, target, c))) <==>
            !Enabled(s, GiveUp(p, target)) && !Enabled(s, WaitSleep(p, target))
    ensures !(Enabled(s, GiveUp(p, target)) && Enabled(s, WaitSleep(p, target)))
    ensures Enabled(s, NoHang(p, target)) <==> Enabled(s, WaitSleep(p, target)) && s.procs[p].pc.User?
  {
    if !NoZombie(s, p, target) {
      var c :| 0 <= c < |s.procs| && Matches(s, p, target, c) && s.procs[c].run.Zombie?;
      assert Enabled(s, Reap(p, target, c));
    }
  }
}
