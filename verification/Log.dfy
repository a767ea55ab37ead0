/**
 kern/log.c in its own form: one mutable log, loops over its slots, one block
 write at a time. Every method states exactly which block writes it issues, in
 order, so the crash lemmas of LogSpec apply to it.
 */
module Log {
  import Bcache
  import opened Bytes
  import opened LogSpec
  import opened Basics

  /** Header slots after log_write(b): absorbed if already there, appended otherwise. */
  function Absorb(blocks: seq<Word>, b: Word): (r: seq<Word>)
    ensures b in r && forall x :: x in r <==> x in blocks || x == b
    ensures Distinct(blocks) ==> Distinct(r)
    ensures |r| == |blocks| + if b in blocks then 0 else 1
  {
    if b in blocks then blocks else blocks + [b]
  }

  /** The panic test of log_write, made before the block is looked up. */
  predicate TooBig(lay: Layout, n: nat) {
    n >= LOGSIZE || n >= lay.size - 1
  }

  /** What bread(b) returns: the pinned buffer, or the disk block it equals. */
  function View(disk: Disk, pinned: map<nat, Block>, b: nat): Block
    requires b < |disk|
  {
    if b in pinned then pinned[b] else disk[b]
  }

  /** The contents of the logged buffers, in slot order; a logged buffer is always pinned. */
  function Gather(pinned: map<nat, Block>, blocks: seq<Word>): (data: seq<Block>)
    requires forall i :: 0 <= i < |blocks| ==> blocks[i] in pinned
    ensures |data| == |blocks|
    ensures forall i :: 0 <= i < |data| ==> data[i] == pinned[blocks[i]]
  {
    seq(|blocks|, i requires 0 <= i < |blocks| => pinned[blocks[i]])
  }

  /** Once the gathered buffers are home, the disk shows what the buffers showed. */
  lemma {:induction false} NewValueIsView(disk: Disk, pinned: map<nat, Block>, blocks: seq<Word>, b: nat)
    requires b < |disk| && forall i :: 0 <= i < |blocks| ==> blocks[i] in pinned
    ensures NewValue(disk, blocks, Gather(pinned, blocks), b) == if b in blocks then pinned[b] else disk[b]
  {
    if blocks != [] && blocks[|blocks| - 1] != b {
      var m := |blocks| - 1;
      assert Gather(pinned, blocks[..m]) == Gather(pinned, blocks)[..m];
      assert b in blocks <==> b in blocks[..m];
      NewValueIsView(disk, pinned, blocks[..m], b);
    }
  }

  /** The blocks a header names. */
  function Names(blocks: seq<Word>): (s: set<nat>)
    ensures forall x: nat :: x in s <==> exists i :: 0 <= i < |blocks| && blocks[i] == x
  {
    set i | 0 <= i < |blocks| :: blocks[i]
  }

  /** Facts about the disk a commit leaves, given the history before and after it. */
  lemma CommitShows(lay: Layout, boot: Disk, h: seq<Write>, pinned: map<nat, Block>, blocks: seq<Word>)
    requires forall i :: 0 <= i < |blocks| ==> blocks[i] in pinned
    requires Loggable(lay, Apply(boot, h), blocks, Gather(pinned, blocks))
    requires pinned.Keys == Names(blocks)
    ensures var d := Apply(boot, h);
            var ws := CommitWrites(lay, d, blocks, Gather(pinned, blocks));
            var e := Apply(boot, h + ws);
            && e == Apply(d, ws) && Count(e[lay.start]) == 0
            && forall b :: 0 <= b < |d| && !InLog(lay, b) ==> e[b] == View(d, pinned, b)
  {
    var d, data := Apply(boot, h), Gather(pinned, blocks);
    var ws := CommitWrites(lay, d, blocks, data);
    ApplyConcat(boot, h, ws);
    CommitDone(lay, d, blocks, data);
    forall b | 0 <= b < |d| && !InLog(lay, b)
      ensures Apply(d, ws)[b] == View(d, pinned, b)
    {
      NewValueIsView(d, pinned, blocks, b);
    }
  }

  lemma LogUnpinned(lay: Layout, size: nat, pinned: map<nat, Block>, blocks: seq<Word>)
    requires HomeBlocks(lay, size, blocks) && pinned.Keys == Names(blocks)
    ensures forall a :: InLog(lay, a) ==> a !in pinned
    ensures forall i :: 0 <= i < |blocks| ==> blocks[i] in pinned
  {
    assert forall i :: 0 <= i < |blocks| ==> blocks[i] in Names(blocks);
  }

  lemma NoneLogged(lay: Layout, size: nat)
    ensures HomeBlocks(lay, size, []) && Names([]) == {}
  {
  }

  lemma NamesAbsorb(blocks: seq<Word>, b: Word)
    ensures Names(Absorb(blocks, b)) == Names(blocks) + {b}
  {
    var r := Absorb(blocks, b);
    if b !in blocks {
      NamesSnoc(r, |blocks|);
      assert r[..|blocks|] == blocks && r[..|r|] == r;
    }
  }

  /** Unpinning one more named block. */
  lemma UnpinNext(pinned: map<nat, Block>, blocks: seq<Word>, k: nat)
    requires k < |blocks|
    ensures (pinned - Names(blocks[..k])) - {blocks[k]} == pinned - Names(blocks[..k + 1])
  {
    NamesSnoc(blocks, k);
  }

  lemma NamesSnoc(blocks: seq<Word>, k: nat)
    requires k < |blocks|
    ensures Names(blocks[..k + 1]) == Names(blocks[..k]) + {blocks[k]}
  {
    var s := Names(blocks[..k + 1]);
    forall x: nat | x in s
      ensures x in Names(blocks[..k]) + {blocks[k]}
    {
      var i :| 0 <= i < k + 1 && blocks[..k + 1][i] == x;
      assert i < k ==> blocks[..k][i] == x;
    }
    forall x: nat | x in Names(blocks[..k])
      ensures x in s
    {
      var i :| 0 <= i < k && blocks[..k][i] == x;
      assert blocks[..k + 1][i] == x;
    }
    assert blocks[..k + 1][k] == blocks[k];
  }

  /** Appending ws[k] to a history that ends with the first k writes of ws. */
  lemma Extend(h: seq<Write>, ws: seq<Write>, k: nat)
    requires k < |ws|
    ensures (h + ws[..k]) + [ws[k]] == h + ws[..k + 1]
  {
  }

  lemma Regroup(h: seq<Write>, a: seq<Write>, b: seq<Write>)
    ensures (h + a) + b == h + (a + b)
  {
  }

  /** The log blocks hold copies of data. */
  predicate Holds(lay: Layout, d: Disk, data: seq<Block>) {
    lay.start + |data| < |d| && forall a :: lay.start < a <= lay.start + |data| ==> d[a] == data[a - lay.start - 1]
  }

  datatype Outcome = Done | Panic

  class Journal {
    const lay: Layout
    var disk: Disk
    var pinned: map<nat, Block>  // buffers carrying B_DIRTY; every other buffer equals its disk block
    var n: nat                   // lh.n
    const block: array<Word>     // lh.block
    var outstanding: nat
    ghost var boot: Disk         // the disk when the log was opened
    ghost var writes: seq<Write> // block writes issued since then, in order

    ghost predicate Traced()
      reads this
    {
      Fits(lay, disk) && disk == Apply(boot, writes)
    }

    /** Between transactions' commits: an empty header on disk, and the pinned buffers are the logged ones. */
    ghost predicate Valid()
      reads this, block
    {
      && Traced()
      && block.Length == LOGSIZE && n <= LOGSIZE && n < lay.size
      && Count(disk[lay.start]) == 0
      && HomeBlocks(lay, |disk|, block[..n]) && Distinct(block[..n])
      && pinned.Keys == Names(block[..n])
    }

    /** What write_log needs: every logged buffer is pinned, no log block is. */
    ghost predicate Ready()
      reads this, block
    {
      && Traced()
      && block.Length == LOGSIZE && n <= LOGSIZE && n < lay.size
      && (forall i :: 0 <= i < n ==> block[i] in pinned)
      && forall a :: InLog(lay, a) ==> a !in pinned
    }

    /** A log on a disk whose header a previous run wrote; recovery has yet to run. */
    constructor (lay: Layout, d: Disk)
      requires LogOk(lay, d)
      ensures this.lay == lay && disk == boot == d && writes == []
      ensures Traced() && block.Length == LOGSIZE && fresh(block)
      ensures n == 0 && outstanding == 0 && pinned == map[]
    {
      this.lay, disk, boot, writes := lay, d, d, [];
      n, outstanding, pinned := 0, 0, map[];
      block := new Word[LOGSIZE](_ => 0);
    }

    /** bwrite: one block reaches the disk and its buffer is clean again. */
    method Bwrite(b: nat, data: Block)
      requires Traced() && b < |disk|
      modifies this`disk, this`pinned, this`writes
      ensures Traced() && writes == old(writes) + [Write(b, data)]
      ensures disk == old(disk)[b := data] && pinned == old(pinned) - {b}
      ensures b !in old(pinned) ==> pinned == old(pinned)
    {
      ApplySnoc(boot, writes, Write(b, data));
      disk := disk[b := data];
      pinned := pinned - {b};
      writes := writes + [Write(b, data)];
    }

    method ReadHead()
      requires LogOk(lay, disk) && block.Length == LOGSIZE
      modifies this`n, block
      ensures n == Count(disk[lay.start]) && block[..n] == Blocks(disk[lay.start])
    {
      var b := disk[lay.start];
      n := Count(b);
      for i := 0 to n
        invariant n == Count(disk[lay.start])
        invariant forall j :: 0 <= j < i ==> block[j] == Blocks(disk[lay.start])[j]
      {
        block[i] := GetWord(b.bytes, i + 1);
      }
    }

    method WriteHead()
      requires Traced() && block.Length == LOGSIZE && n <= LOGSIZE && lay.start !in pinned
      modifies this`disk, this`pinned, this`writes
      ensures Traced() && pinned == old(pinned)
      ensures disk == old(disk)[lay.start := EncodeHeader(old(disk)[lay.start], block[..n])]
      ensures writes == old(writes) + [Write(lay.start, EncodeHeader(old(disk)[lay.start], block[..n]))]
    {
      hide PutWord, Apply;
      var hb := PutWord(disk[lay.start].bytes, 0, n);
      ghost var h0 := hb;
      for i := 0 to n
        invariant |hb| == 512 && hb == PutBlocks(h0, block[..i])
      {
        assert block[..i + 1][..i] == block[..i];
        hb := PutWord(hb, i + 1, block[i]);
      }
      Bwrite(lay.start, Block(hb));
    }

    /** One turn of write_log's loop. */
    method CopyToLog(tail: nat, ghost h: seq<Write>, ghost copies: seq<Write>)
      requires Traced() && block.Length == LOGSIZE && tail < n <= LOGSIZE && n < lay.size
      requires block[tail] in pinned && lay.start + 1 + tail !in pinned
      requires |copies| == n && copies[tail] == Write(lay.start + 1 + tail, pinned[block[tail]])
      requires writes == h + copies[..tail]
      modifies this`disk, this`pinned, this`writes
      ensures Traced() && pinned == old(pinned) && writes == h + copies[..tail + 1]
      ensures disk == old(disk)[lay.start + 1 + tail := copies[tail].data]
    {
      hide Apply;
      Extend(h, copies, tail);
      Bwrite(lay.start + 1 + tail, pinned[block[tail]]);
    }

    method WriteLog()
      requires Ready()
      modifies this`disk, this`pinned, this`writes
      ensures Traced() && |disk| == |old(disk)| && pinned == old(pinned)
      ensures writes == old(writes) + LogCopies(lay, old(Gather(pinned, block[..n])))
      ensures Holds(lay, disk, old(Gather(pinned, block[..n])))
      ensures disk[lay.start] == old(disk)[lay.start]
    {
      hide Apply;
      ghost var blocks := block[..n];
      ghost var data := Gather(pinned, blocks);
      ghost var copies := LogCopies(lay, data);
      for tail := 0 to n
        invariant Traced() && |disk| == |old(disk)| && pinned == old(pinned)
        invariant writes == old(writes) + copies[..tail]
        invariant disk[lay.start] == old(disk)[lay.start]
        invariant forall a :: lay.start < a <= lay.start + tail ==> disk[a] == data[a - lay.start - 1]
      {
        assert block[tail] == blocks[tail];
        CopyToLog(tail, old(writes), copies);
      }
      assert copies[..n] == copies;
    }

    method InstallTrans(ghost data: seq<Block>)
      requires Traced() && block.Length == LOGSIZE && n <= LOGSIZE && n < lay.size
      requires HomeBlocks(lay, |disk|, block[..n])
      requires |data| == n && Holds(lay, disk, data) && forall a :: InLog(lay, a) ==> a !in pinned
      modifies this`disk, this`pinned, this`writes
      ensures Traced() && |disk| == |old(disk)|
      ensures writes == old(writes) + Installs(block[..n], data)
      ensures pinned == old(pinned) - Names(block[..n])
      ensures forall a :: InLog(lay, a) ==> disk[a] == old(disk)[a] && a !in pinned
    {
      hide Apply;
      ghost var blocks := block[..n];
      ghost var installs := Installs(blocks, data);
      for tail := 0 to n
        invariant Traced() && |disk| == |old(disk)|
        invariant writes == old(writes) + installs[..tail]
        invariant pinned == old(pinned) - Names(blocks[..tail])
        invariant forall a :: InLog(lay, a) ==> disk[a] == old(disk)[a] && a !in pinned
      {
        assert blocks[tail] == block[tail];
        UnpinNext(old(pinned), blocks, tail);
        Extend(old(writes), installs, tail);
        Bwrite(block[tail], View(disk, pinned, lay.start + 1 + tail));
      }
      assert blocks[..n] == blocks && installs[..n] == installs;
    }

    /** write_log and the committing write_head. */
    method WriteTransaction()
      requires Ready()
      modifies this`disk, this`pinned, this`writes
      ensures Traced() && |disk| == |old(disk)| && pinned == old(pinned)
      ensures disk[lay.start] == EncodeHeader(old(disk)[lay.start], block[..n])
      ensures Holds(lay, disk, old(Gather(pinned, block[..n])))
      ensures writes == old(writes) + (LogCopies(lay, old(Gather(pinned, block[..n])))
                        + [Write(lay.start, EncodeHeader(old(disk)[lay.start], block[..n]))])
    {
      hide EncodeHeader;
      ghost var copies := LogCopies(lay, Gather(pinned, block[..n]));
      ghost var head := Write(lay.start, EncodeHeader(disk[lay.start], block[..n]));
      WriteLog();
      WriteHead();
      Regroup(old(writes), copies, [head]);
    }

    /** install_trans and the write_head that erases the transaction. */
    method InstallAndClear(ghost data: seq<Block>)
      requires Traced() && block.Length == LOGSIZE && n <= LOGSIZE && n < lay.size
      requires HomeBlocks(lay, |disk|, block[..n])
      requires |data| == n && Holds(lay, disk, data) && forall a :: InLog(lay, a) ==> a !in pinned
      modifies this`disk, this`pinned, this`writes, this`n
      ensures Traced() && |disk| == |old(disk)| && n == 0
      ensures writes == old(writes) + (Installs(old(block[..n]), data)
                        + [Write(lay.start, EncodeHeader(old(disk)[lay.start], []))])
      ensures pinned == old(pinned) - Names(old(block[..n]))
      ensures Count(disk[lay.start]) == 0
    {
      hide EncodeHeader;
      InstallTrans(data);
      n := 0;
      assert block[..n] == [];
      ghost var clear := Write(lay.start, EncodeHeader(disk[lay.start], []));
      WriteHead();
      Regroup(old(writes), Installs(old(block[..n]), data), [clear]);
    }

    /** The block writes of a commit now. */
    ghost function Transaction(): seq<Write>
      requires Valid()
      reads this, block
    {
      LogUnpinned(lay, |disk|, pinned, block[..n]);
      CommitWrites(lay, disk, block[..n], Gather(pinned, block[..n]))
    }

    /** The body of commit(): which blocks it writes, in order. */
    method CommitSteps()
      requires Valid()
      modifies this`disk, this`pinned, this`writes, this`n
      ensures Traced() && n == 0 && pinned == map[] && |disk| == |old(disk)|
      ensures writes == old(writes) + old(Transaction())
    {
      hide EncodeHeader;
      ghost var d, p, blocks := disk, pinned, block[..n];
      LogUnpinned(lay, |d|, p, blocks);
      if n > 0 {
        ghost var data, head := Gather(p, blocks), EncodeHeader(d[lay.start], blocks);
        WriteTransaction();
        InstallAndClear(data);
        Regroup(old(writes), LogCopies(lay, data) + [Write(lay.start, head)],
                Installs(blocks, data) + [Write(lay.start, EncodeHeader(head, []))]);
      }
    }

    /** CommitSteps with what it leaves on the disk: readers of any buffer see no change. */
    method WriteOut()
      requires Valid()
      modifies this`disk, this`pinned, this`writes, this`n
      ensures Valid() && n == 0 && pinned == map[] && |disk| == |old(disk)|
      ensures writes == old(writes) + old(Transaction())
      ensures disk == Apply(old(disk), old(Transaction()))
      ensures forall b :: 0 <= b < |disk| && !InLog(lay, b) ==> disk[b] == old(View(disk, pinned, b))
    {
      hide EncodeHeader, CommitWrites, Apply, Count, Names, HomeBlocks;
      ghost var p, blocks := pinned, block[..n];
      CommitSteps();
      CommitShows(lay, boot, old(writes), p, blocks);
      assert block[..n] == [];
      NoneLogged(lay, |disk|);
    }

    /**
     Writes the transaction out. When it pins every buffer, write_log's first bread
     panics and nothing is written.
     */
    method Commit() returns (r: Outcome)
      requires Valid()
      modifies this`disk, this`pinned, this`writes, this`n
      ensures r == Panic <==> old(n) >= Bcache.NBUF
      ensures r == Panic ==> n == old(n) && pinned == old(pinned) && disk == old(disk) && writes == old(writes)
      ensures r == Done ==> Valid() && n == 0 && pinned == map[] && |disk| == |old(disk)|
      ensures r == Done ==> writes == old(writes) + old(Transaction())
      ensures r == Done ==> disk == Apply(old(disk), old(Transaction()))
      ensures r == Done ==> forall b :: 0 <= b < |disk| && !InLog(lay, b) ==> disk[b] == old(View(disk, pinned, b))
    {
      hide Transaction, Apply, HomeBlocks, Names, Count;
      if n >= Bcache.NBUF {
        return Panic;
      }
      WriteOut();
      r := Done;
    }

    /** Runs once at mount, before any operation. */
    method RecoverFromLog()
      requires Traced() && LogOk(lay, disk) && block.Length == LOGSIZE && pinned == map[]
      modifies this`disk, this`pinned, this`writes, this`n, block
      ensures Valid() && n == 0 && pinned == map[] && |disk| == |old(disk)|
      ensures writes == old(writes) + RecoveryWrites(lay, old(disk))
      ensures disk == Recovered(lay, old(disk))
    {
      hide EncodeHeader, Apply, Names;
      NoneLogged(lay, |disk|);
      ReadHead();
      InstallAndClear(LoggedData(lay, disk));
      ApplyConcat(boot, old(writes), RecoveryWrites(lay, old(disk)));
      assert block[..n] == [];
    }

    /** The caller has modified block b; record it and pin its buffer. */
    method LogWrite(b: Word, data: Block) returns (r: Outcome)
      requires Valid() && b < |disk| && !InLog(lay, b)
      modifies this`n, this`pinned, block
      ensures r == Panic <==> old(TooBig(lay, n) || outstanding < 1)
      ensures r == Panic ==> n == old(n) && pinned == old(pinned) && block[..] == old(block[..])
      ensures r == Done ==> Valid() && block[..n] == Absorb(old(block[..n]), b) && pinned == old(pinned)[b := data]
    {
      hide Apply, Count;
      if n >= LOGSIZE || n >= lay.size - 1 || outstanding < 1 {
        return Panic;
      }
      var i := 0;
      while i < n && block[i] != b
        invariant 0 <= i <= n && b !in block[..i]
      {
        assert block[..i + 1] == block[..i] + [block[i]];
        i := i + 1;
      }
      ghost var blocks := block[..n];
      assert i < n ==> blocks[i] == b;
      block[i] := b;
      if i == n {
        n := n + 1;
      }
      pinned := pinned[b := data];
      r := Done;
      assert block[..n] == Absorb(blocks, b);
      NamesAbsorb(blocks, b);
    }
  }
}
