/**
 What was passed to the writers of a pipe and returned to its readers (kern/pipe.c), from
 the list of steps: the bytes read are the bytes written, each write's in its own order.
 */
module PipeHistory {
  import opened Bytes
  import opened Pipe
  import opened PipeRuns

  /** A call of pipewrite: what it was given, and how many Store steps it has made. */
  datatype Call = Call(buf: seq<Byte>, done: nat)

  /** The k-th byte of a call. */
  datatype Slot = Slot(call: nat, k: nat)

  /** now is the call that each process made last. */
  datatype History = History(calls: seq<Call>, now: map<nat, nat>, trace: seq<Slot>)

  const NONE: History := History([], map[], [])

  function Note(h: History, step: Step): History {
    match step
    case BeginWrite(p, buf) => History(h.calls + [Call(buf, 0)], h.now[p := |h.calls|], h.trace)
    case Store(p) =>
      if p in h.now && h.now[p] < |h.calls| then
        var c := h.now[p];
        var k := h.calls[c].done;
        History(h.calls[c := h.calls[c].(done := k + 1)], h.now, h.trace + [Slot(c, k)])
      else h
    case _ => h
  }

  function Told(h: History, steps: seq<Step>): History
    decreases |steps|
  {
    if steps == [] then h else Told(Note(h, steps[0]), steps[1..])
  }

  function Story(steps: seq<Step>): History {
    Told(NONE, steps)
  }

  /** Every slot is a byte of its call that was stored. */
  predicate SlotsOk(h: History) {
    && (forall i :: 0 <= i < |h.trace| ==> SlotOk(h.calls, h.trace[i]))
    && (forall c :: 0 <= c < |h.calls| ==> h.calls[c].done <= |h.calls[c].buf|)
  }

  predicate SlotOk(calls: seq<Call>, x: Slot) {
    x.call < |calls| && x.k < calls[x.call].done <= |calls[x.call].buf|
  }

  function ByteOf(calls: seq<Call>, x: Slot): Byte {
    if x.call < |calls| && x.k < |calls[x.call].buf| then calls[x.call].buf[x.k] else 0
  }

  /** The bytes written, in the order in which they were stored. */
  function Written(h: History): (r: seq<Byte>)
    ensures |r| == |h.trace| && forall i :: 0 <= i < |r| ==> r[i] == ByteOf(h.calls, h.trace[i])
  {
    seq(|h.trace|, i requires 0 <= i < |h.trace| => ByteOf(h.calls, h.trace[i]))
  }

  /** The places in its buffer that call c has stored, in order. */
  function Places(trace: seq<Slot>, c: nat): seq<nat> {
    if trace == [] then []
    else Places(trace[..|trace| - 1], c) + if trace[|trace| - 1].call == c then [trace[|trace| - 1].k] else []
  }

  lemma PlacesSnoc(trace: seq<Slot>, x: Slot, c: nat)
    ensures Places(trace + [x], c) == Places(trace, c) + if x.call == c then [x.k] else []
  {
    assert (trace + [x])[..|trace|] == trace;
  }

  /** 0, 1, up to n. */
  function UpTo(n: nat): (r: seq<nat>)
    ensures |r| == n && forall i :: 0 <= i < n ==> r[i] == i
  {
    seq(n, i => i)
  }

  /** Each call has stored the first bytes of its buffer, one after the other. */
  ghost predicate InOrder(h: History) {
    && (forall c: nat :: Places(h.trace, c) == UpTo(if c < |h.calls| then h.calls[c].done else 0))
    && (forall p :: p in h.now ==> h.now[p] < |h.calls|)
    && forall p, q :: p in h.now && q in h.now && h.now[p] == h.now[q] ==> p == q
  }

  lemma NoneInOrder()
    ensures InOrder(NONE)
  {
  }

  lemma NoteInOrder(h: History, step: Step)
    requires InOrder(h)
    ensures InOrder(Note(h, step))
  {
    hide Places, UpTo;
    var g := Note(h, step);
    forall c: nat
      ensures Places(g.trace, c) == UpTo(if c < |g.calls| then g.calls[c].done else 0)
    {
      assert Places(h.trace, c) == UpTo(if c < |h.calls| then h.calls[c].done else 0);
      if step.Store? && step.p in h.now {
        PlacesSnoc(h.trace, Slot(h.now[step.p], h.calls[h.now[step.p]].done), c);
        if c == h.now[step.p] {
          UpToNext(h.calls[c].done);
        }
      }
    }
  }

  lemma UpToNext(n: nat)
    ensures UpTo(n + 1) == UpTo(n) + [n]
  {
  }

  // ----------------------------------------------- the machine follows it

  /** A writer is in the call it made last, and has stored as far as it says. */
  predicate WriterOk(s: State, h: History, p: nat)
    requires p < |s.procs|
  {
    s.procs[p].Writer? ==>
      && p in h.now && h.now[p] < |h.calls|
      && h.calls[h.now[p]] == Call(s.procs[p].buf, s.procs[p].i)
  }

  ghost predicate Follows(s: State, h: History) {
    InOrder(h) && SlotsOk(h) && s.sent == Written(h) && forall p :: 0 <= p < |s.procs| ==> WriterOk(s, h, p)
  }

  lemma StoreWritten(h: History, p: nat, b: Byte)
    requires InOrder(h) && SlotsOk(h) && p in h.now
    requires var x := h.calls[h.now[p]]; x.done < |x.buf| && b == x.buf[x.done]
    ensures SlotsOk(Note(h, Store(p))) && Written(Note(h, Store(p))) == Written(h) + [b]
  {
    hide Places, UpTo;
    var g := Note(h, Store(p));
    forall i | 0 <= i < |h.trace|
      ensures SlotOk(g.calls, h.trace[i]) && ByteOf(g.calls, h.trace[i]) == ByteOf(h.calls, h.trace[i])
    {
      assert SlotOk(h.calls, h.trace[i]);
    }
    assert g.trace == h.trace + [Slot(h.now[p], h.calls[h.now[p]].done)];
  }

  lemma BeginWritten(h: History, p: nat, buf: seq<Byte>)
    requires SlotsOk(h)
    ensures SlotsOk(Note(h, BeginWrite(p, buf))) && Written(Note(h, BeginWrite(p, buf))) == Written(h)
  {
    var g := Note(h, BeginWrite(p, buf));
    forall i | 0 <= i < |h.trace|
      ensures SlotOk(g.calls, h.trace[i]) && ByteOf(g.calls, h.trace[i]) == ByteOf(h.calls, h.trace[i])
    {
      assert SlotOk(h.calls, h.trace[i]);
    }
  }

  lemma FollowsNext(s: State, h: History, step: Step)
    requires DataOk(s) && Follows(s, h) && Enabled(s, step)
    ensures Follows(Next(s, step), Note(h, step))
  {
    hide RingOk, Contents, IsFull, IsEmpty, Put, Skip, Suffix, InOrder, Written, SlotsOk;
    var t, g := Next(s, step), Note(h, step);
    NoteInOrder(h, step);
    if step.Store? {
      assert WriterOk(s, h, step.p);
      StoreWritten(h, step.p, s.procs[step.p].buf[s.procs[step.p].i]);
    } else if step.BeginWrite? {
      BeginWritten(h, step.p, step.buf);
    }
    forall p | 0 <= p < |t.procs|
      ensures WriterOk(t, g, p)
    {
      SameProcs(s, step);
      WriterNext(s, h, step, p);
    }
  }

  lemma WriterNext(s: State, h: History, step: Step, p: nat)
    requires InOrder(h) && Enabled(s, step) && p < |s.procs| && forall q :: 0 <= q < |s.procs| ==> WriterOk(s, h, q)
    ensures |Next(s, step).procs| == |s.procs| && WriterOk(Next(s, step), Note(h, step), p)
  {
    hide RingOk, Contents, IsFull, IsEmpty, Put, Skip, InOrder;
    assert WriterOk(s, h, p);
    Different(h);
  }

  lemma Different(h: History)
    requires InOrder(h)
    ensures forall p :: p in h.now ==> h.now[p] < |h.calls|
    ensures forall p, q :: p in h.now && q in h.now && h.now[p] == h.now[q] ==> p == q
  {
  }

  lemma {:induction false} FollowsRun(s: State, h: History, steps: seq<Step>, t: State)
    requires DataOk(s) && Follows(s, h) && Reaches(s, steps, t)
    ensures Follows(t, Told(h, steps))
    decreases |steps|
  {
    hide DataOk, Follows, Enabled, Next, Note;
    if steps != [] {
      FollowsNext(s, h, steps[0]);
      DataStep(s, steps[0]);
      FollowsRun(Next(s, steps[0]), Note(h, steps[0]), steps[1..], t);
    }
  }

  lemma InitFollows(s: State)
    requires Init(s)
    ensures Follows(s, NONE)
  {
    NoneInOrder();
  }

  /** In every run what is stored is what the writers passed, each call's bytes in their order. */
  lemma StoredIsWritten(s: State, steps: seq<Step>, t: State)
    requires Init(s) && Reaches(s, steps, t)
    ensures Follows(t, Story(steps))
  {
    hide Init, Reaches, Follows, Told, DataOk;
    InitFollows(s);
    InitOk(s);
    FollowsRun(s, NONE, steps, t);
  }

  /** A call that returns its length has stored all of its buffer; one that returns -1 has not. */
  lemma WholeBuffer(s: State, steps: seq<Step>, t: State, p: nat)
    requires Init(s) && Reaches(s, steps, t)
    ensures var h := Story(steps);
            && (Enabled(t, EndWrite(p)) ==>
                  p in h.now && h.now[p] < |h.calls| && h.calls[h.now[p]].done == |h.calls[h.now[p]].buf|)
            && (Enabled(t, Broken(p)) || Enabled(t, KilledWrite(p)) ==>
                  p in h.now && h.now[p] < |h.calls| && h.calls[h.now[p]].done < |h.calls[h.now[p]].buf|)
  {
    hide Init, Reaches, Story, InOrder, Written, SlotsOk, IsFull;
    StoredIsWritten(s, steps, t);
    assert p < |t.procs| ==> WriterOk(t, Story(steps), p);
  }

  // ------------------------------------------------------------- the reads

  function Flat(parts: seq<seq<Byte>>): seq<Byte> {
    if parts == [] then [] else parts[0] + Flat(parts[1..])
  }

  /** The bytes that a piperead hands out with its return. */
  function Result(s: State, step: Step): seq<Byte> {
    if step.EndRead? && step.p < |s.procs| && s.procs[step.p].Reader? then s.procs[step.p].got else []
  }

  /** The bytes that the piperead calls of a run return, in the order of their returns. */
  ghost function Returned(s: State, steps: seq<Step>): seq<seq<Byte>>
    decreases |steps|
  {
    if steps == [] || !Enabled(s, steps[0]) then []
    else
      (if steps[0].EndRead? then [Result(s, steps[0])] else []) + Returned(Next(s, steps[0]), steps[1..])
  }

  /** What the reader that holds the lock has copied so far. */
  function Copied(s: State): seq<Byte> {
    if 0 <= s.lock < |s.procs| && s.procs[s.lock].Reader? then s.procs[s.lock].got else []
  }

  /** A step hands out what it takes from the pipe. */
  lemma CopiedNext(s: State, step: Step)
    requires DataOk(s) && Enabled(s, step)
    ensures s.recv <= Next(s, step).recv
    ensures Copied(s) + Next(s, step).recv[|s.recv|..] == Result(s, step) + Copied(Next(s, step))
  {
    hide DataOk, Enabled, Next, Copied, Result;
    TakesOne(s, step);
    var t := Next(s, step);
    if step.Copy? {
      assert t.recv[|s.recv|..] == [s.ring.data[s.ring.nread % PIPESIZE]];
    } else {
      assert t.recv[|s.recv|..] == [];
    }
  }

  lemma TakesOne(s: State, step: Step)
    requires DataOk(s) && Enabled(s, step)
    ensures step.Copy? ==> |s.ring.data| == PIPESIZE
    ensures step.Copy? ==> var b := s.ring.data[s.ring.nread % PIPESIZE];
                           && Next(s, step).recv == s.recv + [b] && Copied(Next(s, step)) == Copied(s) + [b]
                           && Result(s, step) == []
    ensures !step.Copy? ==> Next(s, step).recv == s.recv && Copied(s) == Result(s, step) + Copied(Next(s, step))
  {
    hide RingOk, Contents, IsFull, IsEmpty, Put, Skip, Suffix;
    if s.lock >= 0 {
      assert ProcOk(s, s.lock);
    }
    if !step.CloseRead? && !step.CloseWrite? {
      assert ProcOk(s, step.p);
    }
  }

  lemma {:induction false} ReturnedFrom(s: State, steps: seq<Step>, t: State)
    requires DataOk(s) && Reaches(s, steps, t)
    ensures s.recv <= t.recv && Copied(s) + t.recv[|s.recv|..] == Flat(Returned(s, steps)) + Copied(t)
    decreases |steps|
  {
    hide DataOk, Enabled, Next, Copied;
    if steps != [] {
      var u := Next(s, steps[0]);
      CopiedNext(s, steps[0]);
      DataStep(s, steps[0]);
      ReturnedFrom(u, steps[1..], t);
      var one := Result(s, steps[0]);
      FlatStep(one, steps[0].EndRead?, Returned(u, steps[1..]));
      Middle(Copied(s), s.recv, u.recv, t.recv, one, Copied(u), Flat(Returned(u, steps[1..])), Copied(t));
    } else {
      assert t.recv[|s.recv|..] == [];
    }
  }

  lemma FlatStep(one: seq<Byte>, ends: bool, rest: seq<seq<Byte>>)
    requires !ends ==> one == []
    ensures Flat((if ends then [one] else []) + rest) == one + Flat(rest)
  {
    if ends {
      assert ([one] + rest)[1..] == rest;
    } else {
      assert [] + rest == rest;
    }
  }

  lemma Middle(a: seq<Byte>, r0: seq<Byte>, r1: seq<Byte>, r2: seq<Byte>, one: seq<Byte>, b: seq<Byte>, f: seq<Byte>,
               c: seq<Byte>)
    requires r0 <= r1 <= r2 && a + r1[|r0|..] == one + b && b + r2[|r1|..] == f + c
    ensures a + r2[|r0|..] == one + f + c
  {
    assert r2[|r0|..] == r1[|r0|..] + r2[|r1|..];
    assert a + r2[|r0|..] == (a + r1[|r0|..]) + r2[|r1|..];
    assert (one + b) + r2[|r1|..] == one + (b + r2[|r1|..]);
    assert one + (f + c) == one + f + c;
  }

  /**
   In every run the reads return, one after the other, the bytes that were written, in
   the order in which they were stored; what is missing is in a reader's hands or in
   the ring. The stored bytes are the buffers passed to pipewrite, interleaved byte by
   byte, each from its beginning and in its own order.
   */
  lemma ReadsReturnWrites(s: State, steps: seq<Step>, t: State)
    requires Init(s) && Reaches(s, steps, t)
    ensures RingOk(t.ring) && Flat(Returned(s, steps)) + Copied(t) + Contents(t.ring) == Written(Story(steps))
    ensures InOrder(Story(steps)) && SlotsOk(Story(steps))
  {
    hide Reaches, Story, Returned, Copied, Written, Contents, InOrder, SlotsOk, ProcOk;
    StoredIsWritten(s, steps, t);
    ReadsArePrefix(s, steps, t);
    InitOk(s);
    ReturnedFrom(s, steps, t);
    assert Copied(s) == [] by { NothingCopied(s); }
    assert t.recv[0..] == t.recv;
    assert [] + t.recv == t.recv;
  }

  lemma NothingCopied(s: State)
    requires Init(s)
    ensures Copied(s) == []
  {
  }

  // ------------------------------------------------------------ one writer

  /** Only process w writes. */
  predicate OnlyWriter(steps: seq<Step>, w: nat) {
    forall i :: 0 <= i < |steps| && steps[i].BeginWrite? ==> steps[i].p == w
  }

  /** What the calls have stored, one after the other. */
  function Joined(calls: seq<Call>): seq<Byte> {
    if calls == [] then []
    else
      var x := calls[|calls| - 1];
      Joined(calls[..|calls| - 1]) + if x.done <= |x.buf| then x.buf[..x.done] else x.buf
  }

  /** The last call is w's and the stored bytes come call by call. */
  ghost predicate OneByOne(h: History, w: nat) {
    && InOrder(h) && SlotsOk(h) && Written(h) == Joined(h.calls)
    && (forall p :: p in h.now ==> p == w && h.now[p] == |h.calls| - 1)
  }

  lemma OneByOneNext(s: State, h: History, step: Step, w: nat)
    requires DataOk(s) && Follows(s, h) && Enabled(s, step) && OneByOne(h, w) && (step.BeginWrite? ==> step.p == w)
    ensures OneByOne(Note(h, step), w)
  {
    hide RingOk, Contents, IsFull, IsEmpty, Put, Skip, Suffix, InOrder, Written, SlotsOk;
    NoteInOrder(h, step);
    var n := |h.calls| - 1;
    if step.Store? {
      assert WriterOk(s, h, step.p);
      var x := h.calls[n];
      StoreWritten(h, step.p, x.buf[x.done]);
      var g := Note(h, step);
      assert g.calls[..n] == h.calls[..n];
      assert x.buf[..x.done + 1] == x.buf[..x.done] + [x.buf[x.done]];
      assert Joined(g.calls) == Joined(h.calls[..n]) + (x.buf[..x.done] + [x.buf[x.done]]);
    } else if step.BeginWrite? {
      BeginWritten(h, step.p, step.buf);
      assert (h.calls + [Call(step.buf, 0)])[..|h.calls|] == h.calls;
    }
  }

  lemma {:induction false} OneByOneRun(s: State, h: History, steps: seq<Step>, t: State, w: nat)
    requires DataOk(s) && Follows(s, h) && Reaches(s, steps, t) && OneByOne(h, w) && OnlyWriter(steps, w)
    ensures OneByOne(Told(h, steps), w)
    decreases |steps|
  {
    hide DataOk, Follows, Enabled, Next, Note, OneByOne;
    if steps != [] {
      OneByOneNext(s, h, steps[0], w);
      FollowsNext(s, h, steps[0]);
      DataStep(s, steps[0]);
      OneByOneRun(Next(s, steps[0]), Note(h, steps[0]), steps[1..], t, w);
    }
  }

  /** With one writer the reads return the concatenation of what it passed, call by call. */
  lemma OneWriterConcatenates(s: State, steps: seq<Step>, t: State, w: nat)
    requires Init(s) && Reaches(s, steps, t) && OnlyWriter(steps, w)
    ensures RingOk(t.ring) && Flat(Returned(s, steps)) + Copied(t) + Contents(t.ring) == Joined(Story(steps).calls)
  {
    hide Reaches, Returned, Copied, Written, Contents, InOrder, SlotsOk, Told, DataOk;
    ReadsReturnWrites(s, steps, t);
    InitOk(s);
    InitFollows(s);
    assert Joined(NONE.calls) == [] && Written(NONE) == [];
    OneByOneRun(s, NONE, steps, t, w);
  }

  // ---------------------------------------------------------- end of file

  /** A reader past its wait found data, or the write end closed. */
  predicate FoundData(s: State, p: nat) {
    IsReader(s, p, Copies) && s.procs[p].got == [] && IsEmpty(s.ring) ==> !s.writeopen
  }

  lemma FoundNext(s: State, step: Step, p: nat)
    requires DataOk(s) && Enabled(s, step) && FoundData(s, p)
    ensures FoundData(Next(s, step), p)
  {
    hide RingOk, Contents, Suffix;
    if p < |s.procs| {
      assert ProcOk(s, p);
      if !step.CloseRead? && !step.CloseWrite? {
        assert ProcOk(s, step.p);
      }
    }
  }

  lemma {:induction false} FoundRun(s: State, steps: seq<Step>, t: State, p: nat)
    requires DataOk(s) && Reaches(s, steps, t) && FoundData(s, p)
    ensures DataOk(t) && FoundData(t, p)
    decreases |steps|
  {
    hide DataOk, Enabled, Next, FoundData;
    if steps != [] {
      FoundNext(s, steps[0], p);
      DataStep(s, steps[0]);
      FoundRun(Next(s, steps[0]), steps[1..], t, p);
    }
  }

  /** piperead returns as many bytes as asked for unless the pipe is empty, and none only at the end of the file. */
  lemma ReadAmount(s: State, steps: seq<Step>, t: State, p: nat)
    requires Init(s) && Reaches(s, steps, t) && Enabled(t, EndRead(p))
    ensures |t.procs[p].got| <= t.procs[p].n && (|t.procs[p].got| < t.procs[p].n ==> IsEmpty(t.ring))
    ensures t.procs[p].got == [] && t.procs[p].n > 0 ==> IsEmpty(t.ring) && !t.writeopen
  {
    hide Reaches;
    InitOk(s);
    FoundRun(s, steps, t, p);
    assert ProcOk(t, p);
  }
}
