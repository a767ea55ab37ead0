/**
 The redo log of kern/log.c as single-block disk writes: what commit() and
 recover_from_log() write, in order, and what a crash between any two of those
 writes leaves behind.
 */
module LogSpec {
  import opened Bytes

  const MAXOPBLOCKS: nat := 10
  const LOGSIZE: nat := 30

  type Disk = seq<Block>

  /** sb.logstart and sb.nlog: the header block followed by size-1 log blocks. */
  datatype Layout = Layout(start: nat, size: nat)

  /** One atomic block write reaching the device. */
  datatype Write = Write(addr: nat, data: Block)

  predicate InLog(lay: Layout, a: int) {
    lay.start <= a < lay.start + lay.size
  }

  /** The disk holds the whole log region. */
  predicate Fits(lay: Layout, d: Disk) {
    1 <= lay.size && lay.start + lay.size <= |d|
  }

  // ---------------------------------------------------------------- header

  /** lh->n is a signed int; a negative count makes every header loop run zero times. */
  function Count(b: Block): nat {
    var w := GetWord(b.bytes, 0);
    if w < 0x8000_0000 then w else 0
  }

  function Blocks(b: Block): (s: seq<Word>)
    requires Count(b) <= LOGSIZE
    ensures |s| == Count(b)
  {
    seq(Count(b), i requires 0 <= i < Count(b) => GetWord(b.bytes, i + 1))
  }

  function PutBlocks(b: Sector, blocks: seq<Word>): (r: Sector)
    requires |blocks| <= LOGSIZE
    ensures GetWord(r, 0) == GetWord(b, 0)
    ensures forall i: nat :: i < |blocks| ==> GetWord(r, i + 1) == blocks[i]
    ensures forall i: nat :: |blocks| < i < 128 ==> GetWord(r, i) == GetWord(b, i)
  {
    if blocks == [] then b
    else
      var m := |blocks| - 1;
      var r := PutBlocks(b, blocks[..m]);
      assert forall i: nat :: i < m ==> blocks[..m][i] == blocks[i];
      PutWord(r, m + 1, blocks[m])
  }

  /** write_head: the count and the first n slots change, the rest of the block stays. */
  function EncodeHeader(b: Block, blocks: seq<Word>): (r: Block)
    requires |blocks| <= LOGSIZE
    ensures Count(r) == |blocks| && Blocks(r) == blocks
  {
    Block(PutBlocks(PutWord(b.bytes, 0, |blocks|), blocks))
  }

  // ---------------------------------------------------------------- writes

  function Put(d: Disk, w: Write): (r: Disk)
    ensures |r| == |d|
  {
    if w.addr < |d| then d[w.addr := w.data] else d
  }

  function Apply(d: Disk, ws: seq<Write>): (r: Disk)
    ensures |r| == |d|
  {
    if ws == [] then d else Put(Apply(d, ws[..|ws| - 1]), ws[|ws| - 1])
  }

  function Installs(blocks: seq<Word>, data: seq<Block>): (ws: seq<Write>)
    requires |blocks| == |data|
    ensures |ws| == |blocks|
    ensures forall i :: 0 <= i < |ws| ==> ws[i] == Write(blocks[i], data[i])
  {
    seq(|blocks|, i requires 0 <= i < |blocks| => Write(blocks[i], data[i]))
  }

  function LogCopies(lay: Layout, data: seq<Block>): (ws: seq<Write>)
    ensures |ws| == |data|
    ensures forall i :: 0 <= i < |ws| ==> ws[i] == Write(lay.start + 1 + i, data[i])
  {
    seq(|data|, i requires 0 <= i < |data| => Write(lay.start + 1 + i, data[i]))
  }

  /** Every block write of commit(), in order: log copies, header, installs, cleared header. */
  function CommitWrites(lay: Layout, d: Disk, blocks: seq<Word>, data: seq<Block>): (ws: seq<Write>)
    requires Fits(lay, d) && |blocks| == |data| <= LOGSIZE
  {
    if blocks == [] then []
    else
      var head := EncodeHeader(d[lay.start], blocks);
      (LogCopies(lay, data) + [Write(lay.start, head)])
      + (Installs(blocks, data) + [Write(lay.start, EncodeHeader(head, []))])
  }

  /** A header that recovery can follow: in-range home blocks, as many as the log holds. */
  predicate LogOk(lay: Layout, d: Disk) {
    && Fits(lay, d)
    && Count(d[lay.start]) <= LOGSIZE
    && Count(d[lay.start]) < lay.size
    && HomeBlocks(lay, |d|, Blocks(d[lay.start]))
  }

  predicate HomeBlocks(lay: Layout, size: nat, blocks: seq<Word>) {
    forall i :: 0 <= i < |blocks| ==> blocks[i] < size && !InLog(lay, blocks[i])
  }

  function LoggedData(lay: Layout, d: Disk): (data: seq<Block>)
    requires LogOk(lay, d)
    ensures |data| == Count(d[lay.start])
  {
    d[lay.start + 1..lay.start + 1 + Count(d[lay.start])]
  }

  /** Every block write of recover_from_log(), in order. */
  function RecoveryWrites(lay: Layout, d: Disk): (ws: seq<Write>)
    requires LogOk(lay, d)
    ensures |ws| == Count(d[lay.start]) + 1
  {
    Installs(Blocks(d[lay.start]), LoggedData(lay, d)) + [Write(lay.start, EncodeHeader(d[lay.start], []))]
  }

  function Recovered(lay: Layout, d: Disk): (r: Disk)
    requires LogOk(lay, d)
    ensures |r| == |d|
  {
    Apply(d, RecoveryWrites(lay, d))
  }

  // ------------------------------------------------------- what they mean

  /** The two disks agree on every block outside the log. */
  predicate SameHome(lay: Layout, d: Disk, e: Disk) {
    |d| == |e| && forall a :: 0 <= a < |d| && !InLog(lay, a) ==> d[a] == e[a]
  }

  /** Block a after a transaction: the newest copy the transaction holds, else the old one. */
  function NewValue(d: Disk, blocks: seq<Word>, data: seq<Block>, a: nat): Block
    requires a < |d| && |blocks| == |data|
  {
    if blocks == [] then d[a]
    else if blocks[|blocks| - 1] == a then data[|blocks| - 1]
    else NewValue(d, blocks[..|blocks| - 1], data[..|data| - 1], a)
  }

  /** d with the whole transaction in place, outside the log; the log itself as in e. */
  predicate IsUpdated(lay: Layout, d: Disk, blocks: seq<Word>, data: seq<Block>, e: Disk)
    requires |blocks| == |data|
  {
    |e| == |d| && forall a :: 0 <= a < |d| && !InLog(lay, a) ==> e[a] == NewValue(d, blocks, data, a)
  }

  // ---------------------------------------------------------------- lemmas

  lemma ApplySnoc(d: Disk, ws: seq<Write>, w: Write)
    ensures Apply(d, ws + [w]) == Put(Apply(d, ws), w)
  {
    assert (ws + [w])[..|ws|] == ws;
  }

  lemma {:induction false} ApplyConcat(d: Disk, ws: seq<Write>, vs: seq<Write>)
    ensures Apply(d, ws + vs) == Apply(Apply(d, ws), vs)
  {
    if vs == [] {
      assert ws + vs == ws;
    } else {
      var m := |vs| - 1;
      ApplyConcat(d, ws, vs[..m]);
      assert ws + vs == (ws + vs[..m]) + [vs[m]];
      ApplySnoc(d, ws + vs[..m], vs[m]);
    }
  }

  lemma {:induction false} ApplyLogCopies(lay: Layout, d: Disk, data: seq<Block>)
    requires Fits(lay, d) && |data| < lay.size
    ensures forall a :: 0 <= a < |d| ==>
      Apply(d, LogCopies(lay, data))[a] ==
      if lay.start < a <= lay.start + |data| then data[a - lay.start - 1] else d[a]
  {
    if data != [] {
      var m := |data| - 1;
      ApplyLogCopies(lay, d, data[..m]);
      assert LogCopies(lay, data)[..m] == LogCopies(lay, data[..m]);
    }
  }

  lemma {:induction false} ApplyInstalls(d: Disk, blocks: seq<Word>, data: seq<Block>)
    requires |blocks| == |data|
    ensures forall a :: 0 <= a < |d| ==> Apply(d, Installs(blocks, data))[a] == NewValue(d, blocks, data, a)
  {
    if blocks != [] {
      var m := |blocks| - 1;
      ApplyInstalls(d, blocks[..m], data[..m]);
      assert Installs(blocks, data)[..m] == Installs(blocks[..m], data[..m]);
    }
  }

  /** Installing again over a partly installed disk ends where one installation ends. */
  lemma {:induction false} NewValueAbsorbs(d: Disk, e: Disk, blocks: seq<Word>, data: seq<Block>, a: nat)
    requires a < |d| == |e| && |blocks| == |data|
    requires a in blocks || d[a] == e[a]
    ensures NewValue(d, blocks, data, a) == NewValue(e, blocks, data, a)
  {
    if blocks != [] {
      var m := |blocks| - 1;
      if blocks[m] != a {
        assert a in blocks ==> a in blocks[..m];
        NewValueAbsorbs(d, e, blocks[..m], data[..m], a);
      }
    }
  }

  lemma {:induction false} NewValueUntouched(d: Disk, blocks: seq<Word>, data: seq<Block>, a: nat)
    requires a < |d| && |blocks| == |data| && a !in blocks
    ensures NewValue(d, blocks, data, a) == d[a]
  {
    if blocks != [] {
      NewValueUntouched(d, blocks[..|blocks| - 1], data[..|data| - 1], a);
    }
  }

  /** Recovery moves the logged blocks home and leaves an empty, well-formed log. */
  lemma RecoveredIs(lay: Layout, d: Disk)
    requires LogOk(lay, d)
    ensures var r := Recovered(lay, d);
            && IsUpdated(lay, d, Blocks(d[lay.start]), LoggedData(lay, d), r)
            && LogOk(lay, r) && Count(r[lay.start]) == 0
  {
    var blocks, data := Blocks(d[lay.start]), LoggedData(lay, d);
    var clear := Write(lay.start, EncodeHeader(d[lay.start], []));
    ApplySnoc(d, Installs(blocks, data), clear);
    ApplyInstalls(d, blocks, data);
  }

  /** The state after the first k writes of recovery, block by block. */
  lemma PartialInstall(d: Disk, blocks: seq<Word>, data: seq<Block>, k: nat)
    requires k <= |blocks| == |data|
    ensures var e := Apply(d, Installs(blocks, data)[..k]);
            forall a :: 0 <= a < |d| && a !in blocks ==> e[a] == d[a]
  {
    assert Installs(blocks, data)[..k] == Installs(blocks[..k], data[..k]);
    ApplyInstalls(d, blocks[..k], data[..k]);
    var e := Apply(d, Installs(blocks, data)[..k]);
    forall a | 0 <= a < |d| && a !in blocks
      ensures e[a] == d[a]
    {
      NewValueUntouched(d, blocks[..k], data[..k], a);
    }
  }

  /** Installs never reach the log, so header and log copies survive them. */
  lemma LogSurvivesInstalls(lay: Layout, d: Disk, k: nat)
    requires LogOk(lay, d) && k <= Count(d[lay.start])
    ensures var e := Apply(d, Installs(Blocks(d[lay.start]), LoggedData(lay, d))[..k]);
            LogOk(lay, e) && e[lay.start] == d[lay.start] && LoggedData(lay, e) == LoggedData(lay, d)
  {
    var blocks, data := Blocks(d[lay.start]), LoggedData(lay, d);
    var e := Apply(d, Installs(blocks, data)[..k]);
    PartialInstall(d, blocks, data, k);
    forall a | lay.start <= a <= lay.start + |data|
      ensures e[a] == d[a]
    {
      LogIsNotHome(lay, |d|, blocks, a);
    }
  }

  lemma LogIsNotHome(lay: Layout, size: nat, blocks: seq<Word>, a: nat)
    requires HomeBlocks(lay, size, blocks) && InLog(lay, a)
    ensures a !in blocks
  {
  }

  lemma CrashInInstall(lay: Layout, d: Disk, k: nat)
    requires LogOk(lay, d) && k <= Count(d[lay.start])
    ensures var e := Apply(d, Installs(Blocks(d[lay.start]), LoggedData(lay, d))[..k]);
            LogOk(lay, e) && SameHome(lay, Recovered(lay, e), Recovered(lay, d))
  {
    var blocks, data := Blocks(d[lay.start]), LoggedData(lay, d);
    var e := Apply(d, Installs(blocks, data)[..k]);
    LogSurvivesInstalls(lay, d, k);
    PartialInstall(d, blocks, data, k);
    RecoveredIs(lay, d);
    RecoveredIs(lay, e);
    forall a | 0 <= a < |d| && !InLog(lay, a)
      ensures Recovered(lay, e)[a] == Recovered(lay, d)[a]
    {
      NewValueAbsorbs(d, e, blocks, data, a);
    }
  }

  lemma RecoverTwice(lay: Layout, d: Disk)
    requires LogOk(lay, d)
    ensures var e := Recovered(lay, d);
            LogOk(lay, e) && SameHome(lay, Recovered(lay, e), e)
  {
    RecoveredIs(lay, d);
    RecoveredIs(lay, Recovered(lay, d));
  }

  /** A crash after any number of recovery writes: recovering again gives the same home blocks. */
  lemma CrashInRecovery(lay: Layout, d: Disk, k: nat)
    requires LogOk(lay, d) && k <= |RecoveryWrites(lay, d)|
    ensures var e := Apply(d, RecoveryWrites(lay, d)[..k]);
            LogOk(lay, e) && SameHome(lay, Recovered(lay, e), Recovered(lay, d))
  {
    var ws := RecoveryWrites(lay, d);
    if k < |ws| {
      assert ws[..k] == Installs(Blocks(d[lay.start]), LoggedData(lay, d))[..k];
      CrashInInstall(lay, d, k);
    } else {
      assert ws[..k] == ws;
      RecoverTwice(lay, d);
    }
  }

  /** Machine stops, restarts, recovers, stops again ...: crash i happens after ks[i] recovery writes. */
  function Crashes(lay: Layout, d: Disk, ks: seq<nat>): (e: Disk)
    requires LogOk(lay, d)
    ensures LogOk(lay, e)
    decreases |ks|
  {
    if ks == [] then d
    else
      var ws := RecoveryWrites(lay, d);
      var k := if ks[0] <= |ws| then ks[0] else |ws|;
      CrashInRecovery(lay, d, k);
      Crashes(lay, Apply(d, ws[..k]), ks[1..])
  }

  /** However often recovery is cut short, the recovery that completes yields the same home blocks. */
  lemma {:induction false} RepeatedCrashes(lay: Layout, d: Disk, ks: seq<nat>)
    requires LogOk(lay, d)
    ensures var e := Crashes(lay, d, ks);
            LogOk(lay, e) && SameHome(lay, Recovered(lay, e), Recovered(lay, d))
    decreases |ks|
  {
    if ks != [] {
      var ws := RecoveryWrites(lay, d);
      var k := if ks[0] <= |ws| then ks[0] else |ws|;
      CrashInRecovery(lay, d, k);
      RepeatedCrashes(lay, Apply(d, ws[..k]), ks[1..]);
    }
  }

  /** A transaction that commit() can write: it fits the log and names home blocks. */
  predicate Loggable(lay: Layout, d: Disk, blocks: seq<Word>, data: seq<Block>) {
    && Fits(lay, d) && Count(d[lay.start]) == 0
    && |blocks| == |data| <= LOGSIZE && |blocks| < lay.size
    && HomeBlocks(lay, |d|, blocks)
  }

  /** Only log copies written so far: the header is still empty and home is untouched. */
  lemma BeforeCommitPoint(lay: Layout, d: Disk, blocks: seq<Word>, data: seq<Block>, k: nat)
    requires Loggable(lay, d, blocks, data) && 0 < |blocks| && k <= |blocks|
    ensures var e := Apply(d, CommitWrites(lay, d, blocks, data)[..k]);
            e[lay.start] == d[lay.start] && SameHome(lay, e, d)
  {
    hide EncodeHeader;
    assert CommitWrites(lay, d, blocks, data)[..k] == LogCopies(lay, data[..k]);
    ApplyLogCopies(lay, d, data[..k]);
  }

  /** The committing header write: log copies and header in place, home untouched. */
  function AtCommitPoint(lay: Layout, d: Disk, blocks: seq<Word>, data: seq<Block>): (e: Disk)
    requires Loggable(lay, d, blocks, data)
    ensures |e| == |d| && SameHome(lay, e, d)
    ensures e[lay.start] == EncodeHeader(d[lay.start], blocks)
    ensures forall a :: lay.start < a <= lay.start + |data| ==> e[a] == data[a - lay.start - 1]
  {
    ApplyLogCopies(lay, d, data);
    Apply(d, LogCopies(lay, data))[lay.start := EncodeHeader(d[lay.start], blocks)]
  }

  /** From the header write on, k writes are the commit point followed by k-n-1 installs. */
  lemma CommitThenInstalls(lay: Layout, d: Disk, blocks: seq<Word>, data: seq<Block>, k: nat)
    requires Loggable(lay, d, blocks, data) && 0 < |blocks| < k <= 2 * |blocks| + 1
    ensures |CommitWrites(lay, d, blocks, data)| == 2 * |blocks| + 2
    ensures Apply(d, CommitWrites(lay, d, blocks, data)[..k]) ==
            Apply(AtCommitPoint(lay, d, blocks, data), Installs(blocks, data)[..k - |blocks| - 1])
  {
    hide EncodeHeader;
    var copies, installs := LogCopies(lay, data), Installs(blocks, data)[..k - |blocks| - 1];
    var head := Write(lay.start, EncodeHeader(d[lay.start], blocks));
    assert CommitWrites(lay, d, blocks, data)[..k] == (copies + [head]) + installs;
    ApplyConcat(d, copies + [head], installs);
    ApplySnoc(d, copies, head);
  }

  /** A disk between the two header writes: header and log copies in place, other blocks as in d. */
  predicate Committed(lay: Layout, d: Disk, blocks: seq<Word>, data: seq<Block>, e: Disk)
    requires Loggable(lay, d, blocks, data)
  {
    && |e| == |d|
    && e[lay.start] == EncodeHeader(d[lay.start], blocks)
    && (forall a :: lay.start < a <= lay.start + |data| ==> e[a] == data[a - lay.start - 1])
    && forall a :: 0 <= a < |d| && !InLog(lay, a) && a !in blocks ==> e[a] == d[a]
  }

  lemma InstallsStayCommitted(lay: Layout, d: Disk, blocks: seq<Word>, data: seq<Block>, j: nat)
    requires Loggable(lay, d, blocks, data) && j <= |blocks|
    ensures Committed(lay, d, blocks, data, Apply(AtCommitPoint(lay, d, blocks, data), Installs(blocks, data)[..j]))
  {
    hide EncodeHeader, Put, Apply, Installs, AtCommitPoint;
    var c := AtCommitPoint(lay, d, blocks, data);
    var e := Apply(c, Installs(blocks, data)[..j]);
    PartialInstall(c, blocks, data, j);
    forall a | lay.start <= a <= lay.start + |data|
      ensures e[a] == c[a]
    {
      LogIsNotHome(lay, |d|, blocks, a);
    }
  }

  /** Recovery from such a disk completes the transaction. */
  lemma RecoverCommitted(lay: Layout, d: Disk, blocks: seq<Word>, data: seq<Block>, e: Disk)
    requires Loggable(lay, d, blocks, data) && Committed(lay, d, blocks, data, e)
    ensures LogOk(lay, e) && IsUpdated(lay, d, blocks, data, Recovered(lay, e))
  {
    hide EncodeHeader;
    assert LoggedData(lay, e) == data;
    RecoveredIs(lay, e);
    forall a | 0 <= a < |d| && !InLog(lay, a)
      ensures Recovered(lay, e)[a] == NewValue(d, blocks, data, a)
    {
      NewValueAbsorbs(d, e, blocks, data, a);
    }
  }

  /** Installing over any disk with d's home blocks updates d. */
  lemma InstallUpdates(lay: Layout, d: Disk, c: Disk, blocks: seq<Word>, data: seq<Block>)
    requires SameHome(lay, c, d) && |blocks| == |data|
    ensures IsUpdated(lay, d, blocks, data, Apply(c, Installs(blocks, data)))
  {
    ApplyInstalls(c, blocks, data);
    forall a | 0 <= a < |d| && !InLog(lay, a)
      ensures Apply(c, Installs(blocks, data))[a] == NewValue(d, blocks, data, a)
    {
      NewValueAbsorbs(d, c, blocks, data, a);
    }
  }

  /** The last write of a commit clears the header. */
  lemma CommitLastWrite(lay: Layout, d: Disk, blocks: seq<Word>, data: seq<Block>)
    requires Loggable(lay, d, blocks, data) && 0 < |blocks|
    ensures Apply(d, CommitWrites(lay, d, blocks, data)) ==
            Apply(AtCommitPoint(lay, d, blocks, data), Installs(blocks, data))
              [lay.start := EncodeHeader(EncodeHeader(d[lay.start], blocks), [])]
  {
    hide EncodeHeader;
    var ws := CommitWrites(lay, d, blocks, data);
    var m := 2 * |blocks| + 1;
    CommitThenInstalls(lay, d, blocks, data, m);
    assert Installs(blocks, data)[..|blocks|] == Installs(blocks, data);
    assert ws == ws[..m] + [ws[m]];
    ApplySnoc(d, ws[..m], ws[m]);
  }

  /** The whole commit: every block installed, header empty again. */
  lemma CommitDone(lay: Layout, d: Disk, blocks: seq<Word>, data: seq<Block>)
    requires Loggable(lay, d, blocks, data)
    ensures var e := Apply(d, CommitWrites(lay, d, blocks, data));
            IsUpdated(lay, d, blocks, data, e) && Count(e[lay.start]) == 0
  {
    hide EncodeHeader;
    if blocks != [] {
      CommitLastWrite(lay, d, blocks, data);
      InstallUpdates(lay, d, AtCommitPoint(lay, d, blocks, data), blocks, data);
    }
  }

  lemma CrashBeforeCommitPoint(lay: Layout, d: Disk, blocks: seq<Word>, data: seq<Block>, k: nat)
    requires Loggable(lay, d, blocks, data) && 0 < |blocks| && k <= |blocks|
    ensures var e := Apply(d, CommitWrites(lay, d, blocks, data)[..k]);
            LogOk(lay, e) && SameHome(lay, Recovered(lay, e), d)
  {
    hide EncodeHeader;
    BeforeCommitPoint(lay, d, blocks, data, k);
    RecoveredIs(lay, Apply(d, CommitWrites(lay, d, blocks, data)[..k]));
  }

  lemma CrashAfterCommitPoint(lay: Layout, d: Disk, blocks: seq<Word>, data: seq<Block>, k: nat)
    requires Loggable(lay, d, blocks, data) && 0 < |blocks| < k <= 2 * |blocks| + 1
    ensures |CommitWrites(lay, d, blocks, data)| == 2 * |blocks| + 2
    ensures var e := Apply(d, CommitWrites(lay, d, blocks, data)[..k]);
            LogOk(lay, e) && IsUpdated(lay, d, blocks, data, Recovered(lay, e))
  {
    hide EncodeHeader;
    CommitThenInstalls(lay, d, blocks, data, k);
    InstallsStayCommitted(lay, d, blocks, data, k - |blocks| - 1);
    RecoverCommitted(lay, d, blocks, data, Apply(d, CommitWrites(lay, d, blocks, data)[..k]));
  }

  lemma CrashAfterCommit(lay: Layout, d: Disk, blocks: seq<Word>, data: seq<Block>)
    requires Loggable(lay, d, blocks, data)
    ensures var e := Apply(d, CommitWrites(lay, d, blocks, data));
            LogOk(lay, e) && IsUpdated(lay, d, blocks, data, Recovered(lay, e))
  {
    hide EncodeHeader;
    CommitDone(lay, d, blocks, data);
    RecoveredIs(lay, Apply(d, CommitWrites(lay, d, blocks, data)));
  }

  /** One crash inside commit(), then one recovery. */
  lemma CrashInCommit(lay: Layout, d: Disk, blocks: seq<Word>, data: seq<Block>, k: nat)
    requires Loggable(lay, d, blocks, data) && k <= |CommitWrites(lay, d, blocks, data)|
    ensures var e := Apply(d, CommitWrites(lay, d, blocks, data)[..k]);
            && LogOk(lay, e)
            && (k <= |blocks| ==> SameHome(lay, Recovered(lay, e), d))
            && (k > |blocks| ==> IsUpdated(lay, d, blocks, data, Recovered(lay, e)))
  {
    hide EncodeHeader;
    if k == |CommitWrites(lay, d, blocks, data)| {
      assert CommitWrites(lay, d, blocks, data)[..k] == CommitWrites(lay, d, blocks, data);
      CrashAfterCommit(lay, d, blocks, data);
    } else if k <= |blocks| {
      CrashBeforeCommitPoint(lay, d, blocks, data, k);
    } else {
      CrashAfterCommitPoint(lay, d, blocks, data, k);
    }
  }

  /**
   Crash atomicity. The machine stops after k block writes of commit(), then any
   number of times inside recovery; when a recovery completes, the home blocks are
   all old if the committing header write (write number |blocks|) had not reached
   the disk, and all new if it had.
   */
  lemma CommitIsAtomic(lay: Layout, d: Disk, blocks: seq<Word>, data: seq<Block>, k: nat, ks: seq<nat>)
    requires Loggable(lay, d, blocks, data) && k <= |CommitWrites(lay, d, blocks, data)|
    ensures var e := Apply(d, CommitWrites(lay, d, blocks, data)[..k]);
            && LogOk(lay, e)
            && var r := Recovered(lay, Crashes(lay, e, ks));
               && (k <= |blocks| ==> SameHome(lay, r, d))
               && (k > |blocks| ==> IsUpdated(lay, d, blocks, data, r))
               && LogOk(lay, r) && Count(r[lay.start]) == 0
  {
    hide EncodeHeader;
    var e := Apply(d, CommitWrites(lay, d, blocks, data)[..k]);
    CrashInCommit(lay, d, blocks, data, k);
    RepeatedCrashes(lay, e, ks);
    RecoveredIs(lay, Crashes(lay, e, ks));
  }
}
