/**
 What every run of the group-commit machine keeps: room in the log, a disk that
 recovers to whole groups, and each operation's writes in one group.
 */
module GroupCommitProof {
  import opened LogSpec
  import opened Log
  import opened GroupCommit

  // ------------------------------------------------------------ reference

  function Writes(recs: seq<Rec>): (ws: seq<Write>)
    ensures |ws| == |recs|
  {
    seq(|recs|, i requires 0 <= i < |recs| => Write(recs[i].blk, recs[i].data))
  }

  /** The disk after each group's writes, in order, applied directly: no log, no cache. */
  function Replay(d: Disk, groups: seq<seq<Rec>>): (r: Disk)
    ensures |r| == |d|
  {
    if groups == [] then d
    else Apply(Replay(d, groups[..|groups| - 1]), Writes(groups[|groups| - 1]))
  }

  /** The log_writes of operation o in a group, in order. */
  function Proj(recs: seq<Rec>, o: nat): seq<Rec> {
    if recs == [] then []
    else
      var m := |recs| - 1;
      Proj(recs[..m], o) + if recs[m].op == o then [recs[m]] else []
  }

  // ------------------------------------------------------------ processes

  function Sum(procs: seq<Proc>, f: Proc -> int): int {
    if procs == [] then 0 else Sum(procs[..|procs| - 1], f) + f(procs[|procs| - 1])
  }

  const IsActive: Proc -> int := (q: Proc) => if q.InOp? then 1 else 0

  /** Header slots reserved by begin_op and not used yet. */
  const Unspent: Proc -> int := (q: Proc) => if q.InOp? then MAXOPBLOCKS - |q.logged| else 0

  lemma {:induction false} SumUpdate(procs: seq<Proc>, p: nat, q: Proc, f: Proc -> int)
    requires p < |procs|
    ensures Sum(procs[p := q], f) == Sum(procs, f) - f(procs[p]) + f(q)
  {
    var m := |procs| - 1;
    if p == m {
      assert procs[p := q][..m] == procs[..m];
    } else {
      assert procs[p := q][..m] == procs[..m][p := q];
      SumUpdate(procs[..m], p, q, f);
    }
  }

  lemma {:induction false} SumWake(procs: seq<Proc>, f: Proc -> int)
    requires f(Asleep) == f(Outside)
    ensures Sum(WakeAll(procs), f) == Sum(procs, f)
  {
    if procs != [] {
      var m := |procs| - 1;
      assert WakeAll(procs)[..m] == WakeAll(procs[..m]);
      SumWake(procs[..m], f);
    }
  }

  lemma {:induction false} SumLe(procs: seq<Proc>, f: Proc -> int, g: Proc -> int, k: int)
    requires forall p :: 0 <= p < |procs| ==> f(procs[p]) <= k * g(procs[p])
    ensures Sum(procs, f) <= k * Sum(procs, g)
  {
    if procs != [] {
      var m := |procs| - 1;
      SumLe(procs[..m], f, g, k);
      assert f(procs[m]) <= k * g(procs[m]);
    }
  }

  lemma {:induction false} SumPart(procs: seq<Proc>, p: nat, f: Proc -> int)
    requires p < |procs| && forall q :: 0 <= q < |procs| ==> 0 <= f(procs[q])
    ensures f(procs[p]) <= Sum(procs, f)
  {
    var m := |procs| - 1;
    if p < m {
      SumPart(procs[..m], p, f);
    } else {
      SumNat(procs[..m], f);
    }
  }

  lemma {:induction false} SumNat(procs: seq<Proc>, f: Proc -> int)
    requires forall q :: 0 <= q < |procs| ==> 0 <= f(procs[q])
    ensures 0 <= Sum(procs, f)
  {
    if procs != [] {
      SumNat(procs[..|procs| - 1], f);
    }
  }

  lemma {:induction false} SumZero(procs: seq<Proc>, f: Proc -> int)
    requires forall q :: 0 <= q < |procs| ==> 0 == f(procs[q])
    ensures 0 == Sum(procs, f)
  {
    if procs != [] {
      SumZero(procs[..|procs| - 1], f);
    }
  }

  // -------------------------------------------- room in the log, who commits

  /** A process inside an operation: its blocks are in the header, its budget is not overdrawn. */
  predicate OpOk(c: Config, s: State, q: Proc) {
    q.InOp? ==>
      && q.op < |s.fate| && s.fate[q.op].Pending?
      && |q.logged| <= MAXOPBLOCKS && (forall b :: b in q.logged ==> b in s.lh)
      && (!q.hold.Nothing? ==> Home(c, q.hold.blk) && |q.logged + {q.hold.blk}| <= MAXOPBLOCKS)
  }

  predicate OneCommitter(s: State) {
    && (forall p, q :: 0 <= p < |s.procs| && 0 <= q < |s.procs| ==>
          s.procs[p].Committing? && s.procs[q].Committing? ==> p == q)
    && (s.committing <==> exists p :: 0 <= p < |s.procs| && s.procs[p].Committing?)
    && (s.committing ==> s.outstanding == 0)
  }

  predicate RoomOk(s: State) {
    s.outstanding == Sum(s.procs, IsActive) && |s.lh| + Sum(s.procs, Unspent) <= LOGSIZE
  }

  /** Whoever sleeps in begin_op still has a reason to. */
  predicate NoStaleSleeper(s: State) {
    forall p :: 0 <= p < |s.procs| && s.procs[p].Asleep? ==> MustWait(s)
  }

  predicate ProcsOk(c: Config, s: State) {
    && (forall p :: 0 <= p < |s.procs| ==> OpOk(c, s, s.procs[p]))
    && OneCommitter(s) && RoomOk(s) && NoStaleSleeper(s)
  }

  /** Nobody is inside an operation while a commit runs. */
  lemma NobodyInside(c: Config, s: State, p: nat)
    requires ProcsOk(c, s) && s.committing && p < |s.procs|
    ensures !s.procs[p].InOp?
  {
    SumPart(s.procs, p, IsActive);
  }

  lemma UnspentNat(c: Config, s: State)
    requires ProcsOk(c, s)
    ensures forall p :: 0 <= p < |s.procs| ==> 0 <= Unspent(s.procs[p]) <= MAXOPBLOCKS * IsActive(s.procs[p])
    ensures 0 <= Sum(s.procs, Unspent) <= MAXOPBLOCKS * s.outstanding
  {
    forall p | 0 <= p < |s.procs|
      ensures 0 <= Unspent(s.procs[p]) <= MAXOPBLOCKS * IsActive(s.procs[p])
    {
      assert OpOk(c, s, s.procs[p]);
    }
    SumNat(s.procs, Unspent);
    SumLe(s.procs, Unspent, IsActive, MAXOPBLOCKS);
  }

  /** A block that is not yet in the header always finds a free slot. */
  lemma RoomForNew(c: Config, s: State, p: nat)
    requires ProcsOk(c, s) && p < |s.procs| && s.procs[p].InOp? && !s.procs[p].hold.Nothing?
    requires s.procs[p].hold.blk !in s.lh
    ensures |s.lh| < LOGSIZE
  {
    var q := s.procs[p];
    assert OpOk(c, s, q);
    assert |q.logged + {q.hold.blk}| == |q.logged| + 1;
    UnspentNat(c, s);
    SumPart(s.procs, p, Unspent);
  }

  lemma BeginProcs(c: Config, s: State, p: nat)
    requires ProcsOk(c, s) && Enabled(c, s, Begin(p))
    ensures ProcsOk(c, Next(c, s, Begin(p)))
  {
    hide Sum, EncodeHeader, Held;
    var t := Next(c, s, Begin(p));
    UnspentNat(c, s);
    SumUpdate(s.procs, p, t.procs[p], IsActive);
    SumUpdate(s.procs, p, t.procs[p], Unspent);
    forall q | 0 <= q < |t.procs|
      ensures OpOk(c, t, t.procs[q])
    {
      assert OpOk(c, s, s.procs[q]);
    }
  }

  /** Wait, Take and Check change one process and none of the counts. */
  lemma QuietProcs(c: Config, s: State, step: Step)
    requires ProcsOk(c, s) && Enabled(c, s, step) && (step.Wait? || step.Take? || step.Check?)
    ensures ProcsOk(c, Next(c, s, step))
  {
    hide Sum, EncodeHeader, Held;
    var t := Next(c, s, step);
    SumUpdate(s.procs, step.p, t.procs[step.p], IsActive);
    SumUpdate(s.procs, step.p, t.procs[step.p], Unspent);
    assert t.procs == s.procs[step.p := t.procs[step.p]];
    forall q | 0 <= q < |t.procs|
      ensures OpOk(c, t, t.procs[q])
    {
      assert OpOk(c, s, s.procs[q]);
    }
    forall q | 0 <= q < |t.procs|
      ensures t.procs[q].Committing? <==> s.procs[q].Committing?
    {
    }
  }

  lemma RecordIs(c: Config, s: State, p: nat)
    requires Enabled(c, s, Record(p))
    ensures var t, q := Next(c, s, Record(p)), s.procs[p];
            && t.procs == s.procs[p := InOp(q.op, q.logged + {q.hold.blk}, Nothing)]
            && t.lh == Absorb(s.lh, q.hold.blk) && t.fate == s.fate && t.mode == s.mode
            && t.outstanding == s.outstanding && t.committing == s.committing
  {
  }

  lemma RecordProcs(c: Config, s: State, p: nat)
    requires ProcsOk(c, s) && Enabled(c, s, Record(p))
    ensures ProcsOk(c, Next(c, s, Record(p)))
  {
    hide Sum, Next, Absorb;
    RecordIs(c, s, p);
    var t := Next(c, s, Record(p));
    var q := s.procs[p];
    var b := q.hold.blk;
    assert OpOk(c, s, q);
    SumUpdate(s.procs, p, t.procs[p], IsActive);
    SumUpdate(s.procs, p, t.procs[p], Unspent);
    assert b !in q.logged ==> |q.logged + {b}| == |q.logged| + 1;
    assert b in q.logged ==> q.logged + {b} == q.logged;
    forall r | 0 <= r < |t.procs|
      ensures OpOk(c, t, t.procs[r])
    {
      assert OpOk(c, s, s.procs[r]);
    }
    forall r | 0 <= r < |t.procs|
      ensures t.procs[r].Committing? <==> s.procs[r].Committing?
    {
    }
  }

  lemma EndProcs(c: Config, s: State, p: nat)
    requires ProcsOk(c, s) && Enabled(c, s, End(p)) && s.outstanding > 1
    ensures ProcsOk(c, Next(c, s, End(p)))
  {
    hide Sum, EncodeHeader, Held;
    var t := Next(c, s, End(p));
    UnspentNat(c, s);
    SumUpdate(s.procs, p, Outside, IsActive);
    SumUpdate(s.procs, p, Outside, Unspent);
    SumWake(s.procs[p := Outside], IsActive);
    SumWake(s.procs[p := Outside], Unspent);
    forall r | 0 <= r < |t.procs|
      ensures OpOk(c, t, t.procs[r])
    {
      assert OpOk(c, s, s.procs[r]);
    }
  }

  lemma LastEndProcs(c: Config, s: State, p: nat)
    requires ProcsOk(c, s) && Enabled(c, s, End(p)) && s.outstanding == 1 && !CommitStops(s)
    ensures ProcsOk(c, Next(c, s, End(p)))
  {
    hide Sum, EncodeHeader, Held;
    var t := Next(c, s, End(p));
    UnspentNat(c, s);
    SumUpdate(s.procs, p, t.procs[p], IsActive);
    SumUpdate(s.procs, p, t.procs[p], Unspent);
    assert t.procs[p].Committing?;
    forall r | 0 <= r < |t.procs|
      ensures OpOk(c, t, t.procs[r])
    {
      assert OpOk(c, s, s.procs[r]);
    }
  }

  lemma CommitShape(c: Config, s: State, p: nat)
    requires Enabled(c, s, CommitWrite(p))
    ensures var t := Next(c, s, CommitWrite(p));
            && |t.procs| == |s.procs| && t.procs[p].Committing? && t.procs == s.procs[p := t.procs[p]]
            && t.outstanding == s.outstanding && t.committing == s.committing
            && (t.lh == s.lh || t.lh == []) && |t.fate| == |s.fate| && t.mode == s.mode
  {
    hide EncodeHeader, Put, View;
  }

  lemma CommitProcs(c: Config, s: State, p: nat)
    requires ProcsOk(c, s) && Enabled(c, s, CommitWrite(p))
    ensures ProcsOk(c, Next(c, s, CommitWrite(p)))
  {
    hide Next, Sum;
    var t := Next(c, s, CommitWrite(p));
    CommitShape(c, s, p);
    SumUpdate(s.procs, p, t.procs[p], IsActive);
    SumUpdate(s.procs, p, t.procs[p], Unspent);
    forall r | 0 <= r < |t.procs|
      ensures OpOk(c, t, t.procs[r])
    {
      NobodyInside(c, s, r);
    }
  }

  lemma FinishProcs(c: Config, s: State, p: nat)
    requires ProcsOk(c, s) && Enabled(c, s, Finish(p))
    ensures ProcsOk(c, Next(c, s, Finish(p)))
  {
    hide Sum, EncodeHeader, Held;
    var t := Next(c, s, Finish(p));
    SumUpdate(s.procs, p, Outside, IsActive);
    SumUpdate(s.procs, p, Outside, Unspent);
    SumWake(s.procs[p := Outside], IsActive);
    SumWake(s.procs[p := Outside], Unspent);
    forall r | 0 <= r < |t.procs|
      ensures OpOk(c, t, t.procs[r])
    {
      assert OpOk(c, s, s.procs[r]);
    }
  }

  /** After a reboot nobody is anywhere. */
  lemma FreshProcs(c: Config, s: State)
    requires forall p :: 0 <= p < |s.procs| ==> s.procs[p].Outside?
    requires s.outstanding == 0 && !s.committing && |s.lh| <= LOGSIZE
    ensures ProcsOk(c, s)
  {
    SumZero(s.procs, IsActive);
    SumZero(s.procs, Unspent);
  }
}
