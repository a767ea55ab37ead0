/**
 The buffer cache (kern/bio.c): the most-recently-used list as prev/next links over
 the buffer array, proved to be a list of all buffers, and bget and brelse proved
 against a plain ordered list.
 */
module Bcache {
  import opened Bytes
  import opened Basics

  const NBUF: nat := 30

  datatype Key = Key(dev: nat, blockno: nat)
  datatype Buf = Buf(key: Key, valid: bool, dirty: bool, refcnt: nat, data: Block)

  /** The cache as a list: order[0] is the most recently used buffer. */
  datatype Cache = Cache(order: seq<nat>, bufs: seq<Buf>)

  /** A list of all the buffers, each once. */
  ghost predicate CacheOk(c: Cache) {
    && |c.order| == |c.bufs| == NBUF && Distinct(c.order)
    && (forall i :: 0 <= i < NBUF ==> c.order[i] < NBUF)
    && forall b: nat :: b < NBUF ==> b in c.order
  }

  // ------------------------------------------------------- what bget does

  /** The first place from i on whose buffer holds key; |order| if none. */
  function First(c: Cache, key: Key, i: nat): (k: nat)
    requires i <= |c.order| && forall j :: 0 <= j < |c.order| ==> c.order[j] < |c.bufs|
    ensures i <= k <= |c.order| && (k < |c.order| ==> c.bufs[c.order[k]].key == key)
    ensures forall j :: i <= j < k ==> c.bufs[c.order[j]].key != key
    decreases |c.order| - i
  {
    if i == |c.order| || c.bufs[c.order[i]].key == key then i else First(c, key, i + 1)
  }

  /** Neither in use nor pinned by the log. */
  predicate Unused(b: Buf) {
    b.refcnt == 0 && !b.dirty
  }

  /** The last place before n whose buffer is unused. */
  function LastUnused(c: Cache, n: nat): (r: Option<nat>)
    requires n <= |c.order| && forall j :: 0 <= j < |c.order| ==> c.order[j] < |c.bufs|
    ensures r.Some? ==> r.value < n && Unused(c.bufs[c.order[r.value]])
    ensures r.Some? ==> forall j :: r.value < j < n ==> !Unused(c.bufs[c.order[j]])
    ensures r.None? ==> forall j :: 0 <= j < n ==> !Unused(c.bufs[c.order[j]])
  {
    if n == 0 then None else if Unused(c.bufs[c.order[n - 1]]) then Some(n - 1) else LastUnused(c, n - 1)
  }

  /** The buffer bget picks for key; None is its panic. */
  function Pick(c: Cache, key: Key): (r: Option<nat>)
    requires CacheOk(c)
    ensures r.Some? ==> r.value < NBUF
  {
    var k := First(c, key, 0);
    if k < NBUF then Some(c.order[k]) else
      var u := LastUnused(c, NBUF);
      if u.Some? then Some(c.order[u.value]) else None
  }

  /** The cache once bget has picked b for key. */
  function Gotten(c: Cache, b: nat, key: Key): Cache
    requires b < |c.bufs|
  {
    var x := c.bufs[b];
    c.(bufs := c.bufs[b := if x.key == key then x.(refcnt := x.refcnt + 1) else Buf(key, false, false, 1, x.data)])
  }

  /** bget finds a buffer unless the block is not cached and every buffer is referenced or dirty. */
  lemma PickFails(c: Cache, key: Key)
    requires CacheOk(c)
    ensures Pick(c, key).None? <==> forall b: nat :: b < NBUF ==> c.bufs[b].key != key && !Unused(c.bufs[b])
  {
    if Pick(c, key).None? {
      forall b: nat | b < NBUF
        ensures c.bufs[b].key != key && !Unused(c.bufs[b])
      {
        assert b in c.order;
      }
    }
  }

  /** What bget picks holds the key already, and is the first to, or no buffer does and it is unused. */
  lemma PickIs(c: Cache, key: Key)
    requires CacheOk(c) && Pick(c, key).Some?
    ensures var b := Pick(c, key).value;
            if c.bufs[b].key == key then exists k :: 0 <= k < NBUF && c.order[k] == b && FirstAt(c, key, k)
            else Unused(c.bufs[b]) && forall x: nat :: x < NBUF ==> c.bufs[x].key != key
  {
    var k := First(c, key, 0);
    if k < NBUF {
      assert FirstAt(c, key, k);
    } else {
      forall x: nat | x < NBUF
        ensures c.bufs[x].key != key
      {
        assert x in c.order;
      }
    }
  }

  predicate FirstAt(c: Cache, key: Key, k: nat)
    requires CacheOk(c) && k < NBUF
  {
    c.bufs[c.order[k]].key == key && forall j :: 0 <= j < k ==> c.bufs[c.order[j]].key != key
  }

  // ----------------------------------------------------- what brelse does

  function IndexOf(s: seq<nat>, b: nat): (k: nat)
    requires b in s
    ensures k < |s| && s[k] == b
  {
    if s[0] == b then 0 else IndexOf(s[1..], b) + 1
  }

  function Without(s: seq<nat>, k: nat): (r: seq<nat>)
    requires k < |s|
    ensures |r| == |s| - 1 && forall i :: 0 <= i < |r| ==> r[i] == if i < k then s[i] else s[i + 1]
  {
    s[..k] + s[k + 1..]
  }

  /** b moved to the front. */
  function Front(order: seq<nat>, b: nat): (r: seq<nat>)
    requires b in order
    ensures |r| == |order| && r[0] == b
  {
    [b] + Without(order, IndexOf(order, b))
  }

  function Released(c: Cache, b: nat): Cache
    requires b < |c.bufs| && b in c.order && c.bufs[b].refcnt > 0
  {
    var x := c.bufs[b].(refcnt := c.bufs[b].refcnt - 1);
    Cache(if x.refcnt == 0 then Front(c.order, b) else c.order, c.bufs[b := x])
  }

  /** What is at place i after a move to the front, and where it was. */
  function Origin(k: nat, i: nat): nat {
    if i == 0 then k else if i <= k then i - 1 else i
  }

  lemma FrontAt(order: seq<nat>, b: nat, i: nat)
    requires b in order && i < |order|
    ensures Origin(IndexOf(order, b), i) < |order| && Front(order, b)[i] == order[Origin(IndexOf(order, b), i)]
  {
  }

  /** Moving to the front keeps all buffers listed once. */
  lemma FrontKeeps(order: seq<nat>, b: nat)
    requires Distinct(order) && b in order
    ensures Distinct(Front(order, b))
    ensures forall x :: x in Front(order, b) <==> x in order
  {
    hide Front, IndexOf;
    var f := Front(order, b);
    forall i, j | 0 <= i < j < |f|
      ensures f[i] != f[j]
    {
      FrontAt(order, b, i);
      FrontAt(order, b, j);
    }
    FrontSame(order, b);
  }

  lemma FrontSame(order: seq<nat>, b: nat)
    requires b in order
    ensures forall x :: x in Front(order, b) <==> x in order
  {
    hide Front, IndexOf;
    var k, f := IndexOf(order, b), Front(order, b);
    forall x | x in f
      ensures x in order
    {
      var i :| 0 <= i < |f| && f[i] == x;
      FrontAt(order, b, i);
    }
    forall x | x in order
      ensures x in f
    {
      var i :| 0 <= i < |order| && order[i] == x;
      var j := if i == k then 0 else if i < k then i + 1 else i;
      FrontAt(order, b, j);
      assert f[j] == x;
    }
  }

  // --------------------------------------------------- the linked list

  const HEAD: nat := 30  // bcache.head, after the buffers

  /** The k-th node from the head; the head itself at both ends. */
  function At(order: seq<nat>, k: nat): nat
    requires k <= |order| + 1
  {
    if k == 0 || k == |order| + 1 then HEAD else order[k - 1]
  }

  predicate LinkOk(order: seq<nat>, prev: seq<nat>, next: seq<nat>, k: nat)
    requires k <= |order| && |prev| == |next| == NBUF + 1
  {
    var a, b := At(order, k), At(order, k + 1);
    a <= HEAD && b <= HEAD && next[a] == b && prev[b] == a
  }

  /** prev and next string order together, through the head. */
  predicate Linked(order: seq<nat>, prev: seq<nat>, next: seq<nat>) {
    && |prev| == |next| == NBUF + 1 && Distinct(order) && (forall i :: 0 <= i < |order| ==> order[i] < NBUF)
    && forall k :: 0 <= k <= |order| ==> LinkOk(order, prev, next, k)
  }

  /** Putting b behind the head. */
  lemma FrontLinked(order: seq<nat>, prev: seq<nat>, next: seq<nat>, b: nat)
    requires Linked(order, prev, next) && b !in order && b < NBUF
    ensures var f := next[HEAD];
            f <= HEAD && Linked([b] + order, prev[b := HEAD][f := b], next[b := f][HEAD := b])
  {
    assert LinkOk(order, prev, next, 0);
    var f, order' := next[HEAD], [b] + order;
    var prev', next' := prev[b := HEAD][f := b], next[b := f][HEAD := b];
    forall k | 0 <= k <= |order'|
      ensures LinkOk(order', prev', next', k)
    {
      if k >= 2 {
        assert LinkOk(order, prev, next, k - 1);
        NodesDiffer(order, k - 1, 0);
        NodesDiffer(order, k, 1);
      }
    }
  }

  /** Nodes at different places before the end are different. */
  lemma NodesDiffer(order: seq<nat>, i: nat, j: nat)
    requires Distinct(order) && (forall x :: 0 <= x < |order| ==> order[x] < NBUF) && j < i <= |order| + 1
    ensures At(order, i) == At(order, j) ==> j == 0 && i == |order| + 1
  {
  }

  /** Taking the buffer at place k + 1 out. */
  lemma UnlinkLinked(order: seq<nat>, prev: seq<nat>, next: seq<nat>, k: nat)
    requires Linked(order, prev, next) && k < |order|
    ensures var b := order[k];
            && prev[b] <= HEAD && next[b] <= HEAD
            && Linked(Without(order, k), prev[next[b] := prev[b]], next[prev[b] := next[b]])
  {
    var b, order' := order[k], Without(order, k);
    assert LinkOk(order, prev, next, k) && LinkOk(order, prev, next, k + 1);
    var prev', next' := prev[next[b] := prev[b]], next[prev[b] := next[b]];
    forall i | 0 <= i <= |order'|
      ensures LinkOk(order', prev', next', i)
    {
      UnlinkAt(order, prev, next, k, i);
    }
  }

  lemma AtWithout(order: seq<nat>, k: nat, j: nat)
    requires k < |order| && j <= |order|
    ensures At(Without(order, k), j) == At(order, if j <= k then j else j + 1)
  {
  }

  lemma LinkedParts(order: seq<nat>, prev: seq<nat>, next: seq<nat>, k: nat)
    requires Linked(order, prev, next) && k <= |order|
    ensures |prev| == |next| == NBUF + 1 && Distinct(order) && (forall i :: 0 <= i < |order| ==> order[i] < NBUF)
    ensures LinkOk(order, prev, next, k)
  {
  }

  lemma UnlinkAt(order: seq<nat>, prev: seq<nat>, next: seq<nat>, k: nat, i: nat)
    requires Linked(order, prev, next) && k < |order| && i < |order|
    requires order[k] < NBUF && prev[order[k]] == At(order, k) && next[order[k]] == At(order, k + 2)
    requires prev[order[k]] <= HEAD && next[order[k]] <= HEAD
    ensures var b := order[k]; LinkOk(Without(order, k), prev[next[b] := prev[b]], next[prev[b] := next[b]], i)
  {
    hide At, Without, Linked;
    AtWithout(order, k, i);
    AtWithout(order, k, i + 1);
    LinkedParts(order, prev, next, i);
    LinkedParts(order, prev, next, i + 1);
    if i < k {
      NodesDiffer(order, k, i);
      NodesDiffer(order, k + 2, i + 1);
    } else if i > k {
      NodesDiffer(order, i + 1, k);
      NodesDiffer(order, i + 2, k + 2);
    }
  }

  /** Every buffer as binit leaves it: block 0 of device 0, but not valid. */
  const FRESHBUF: Buf := Buf(Key(0, 0), false, false, 0, Block(Zeros(512)))

  class BufferCache {
    var prev: seq<nat>
    var next: seq<nat>
    var bufs: seq<Buf>
    ghost var order: seq<nat>

    ghost function Abs(): Cache
      reads this
    {
      Cache(order, bufs)
    }

    ghost predicate Valid()
      reads this
    {
      CacheOk(Abs()) && Linked(order, prev, next)
    }

    /** binit */
    constructor ()
      ensures Valid() && forall b :: 0 <= b < NBUF ==> bufs[b] == FRESHBUF
    {
      prev := seq(NBUF + 1, _ => HEAD);
      next := seq(NBUF + 1, _ => HEAD);
      bufs := seq(NBUF, _ => FRESHBUF);
      order := [];
      new;
      for b := 0 to NBUF
        invariant Linked(order, prev, next) && |order| == b && |bufs| == NBUF
        invariant forall i :: 0 <= i < b ==> order[i] == b - 1 - i
        invariant forall x :: 0 <= x < NBUF ==> bufs[x] == FRESHBUF
      {
        FrontLinked(order, prev, next, b);
        LinkFront(b);
        order := [b] + order;
      }
      forall b: nat | b < NBUF
        ensures b in order
      {
        assert order[NBUF - 1 - b] == b;
      }
    }

    /** The last four assignments of brelse, and of binit's loop. */
    method LinkFront(b: nat)
      requires |prev| == |next| == NBUF + 1 && b < NBUF && next[HEAD] <= HEAD
      modifies this`prev, this`next
      ensures var f := old(next)[HEAD];
              prev == old(prev)[b := HEAD][f := b] && next == old(next)[b := f][HEAD := b]
    {
      next := next[b := next[HEAD]];
      prev := prev[b := HEAD];
      prev := prev[next[HEAD] := b];
      next := next[HEAD := b];
    }

    /** bget's critical section: the cached buffer, or the least recently used unused one. None is its panic. */
    method Bget(key: Key) returns (r: Option<nat>)
      requires Valid()
      modifies this`bufs
      ensures Valid() && r == Pick(old(Abs()), key)
      ensures Abs() == if r.Some? then Gotten(old(Abs()), r.value, key) else old(Abs())
    {
      hide Linked;
      r := Scan(key);
      if r.Some? {
        bufs := bufs[r.value := bufs[r.value].(refcnt := bufs[r.value].refcnt + 1)];
        return;
      }
      r := ScanBack();
      if r.Some? {
        bufs := bufs[r.value := Buf(key, false, false, 1, bufs[r.value].data)];
      }
    }

    /** From the head along next. */
    method Scan(key: Key) returns (r: Option<nat>)
      requires Valid()
      ensures var k := First(Abs(), key, 0); r == if k < NBUF then Some(order[k]) else None
    {
      hide Linked;
      ghost var k: nat := 0;
      LinkedParts(order, prev, next, 0);
      var b := next[HEAD];
      while b != HEAD
        invariant k <= NBUF && b == At(order, k + 1) && First(Abs(), key, 0) == First(Abs(), key, k)
        decreases NBUF - k
      {
        if bufs[b].key == key {
          return Some(b);
        }
        k := k + 1;
        LinkedParts(order, prev, next, k);
        b := next[b];
      }
      r := None;
    }

    /** From the head along prev. */
    method ScanBack() returns (r: Option<nat>)
      requires Valid()
      ensures var u := LastUnused(Abs(), NBUF); r == if u.Some? then Some(order[u.value]) else None
    {
      hide Linked;
      ghost var k: nat := NBUF;
      LinkedParts(order, prev, next, k);
      var b := prev[HEAD];
      while b != HEAD
        invariant k <= NBUF && b == At(order, k) && LastUnused(Abs(), NBUF) == LastUnused(Abs(), k)
        decreases k
      {
        if bufs[b].refcnt == 0 && !bufs[b].dirty {
          return Some(b);
        }
        k := k - 1;
        LinkedParts(order, prev, next, k);
        b := prev[b];
      }
      r := None;
    }

    /** The list half of brelse: drop the reference; the last one moves the buffer to the front. */
    method Brelse(b: nat)
      requires Valid() && b < NBUF && bufs[b].refcnt > 0
      modifies this
      ensures Valid() && old(b in order) && Abs() == Released(old(Abs()), b)
    {
      hide Linked, Front, Distinct;
      assert b in order;
      bufs := bufs[b := bufs[b].(refcnt := bufs[b].refcnt - 1)];
      if bufs[b].refcnt == 0 {
        MoveFront(b);
        FrontKeeps(order, b);
        FrontAll(order, b);
        order := Front(order, b);
      }
    }

    /** The six assignments that unlink b and put it behind the head. */
    method MoveFront(b: nat)
      requires Linked(order, prev, next) && b in order
      modifies this`prev, this`next
      ensures Linked(Front(order, b), prev, next)
    {
      hide Linked, Distinct, Without;
      ghost var k := IndexOf(order, b);
      UnlinkLinked(order, prev, next, k);
      LinkedParts(order, prev, next, k);
      SelfSafe(order, prev, next, k);
      WithoutDrops(order, k);
      ghost var p0, n0 := prev, next;
      prev := prev[next[b] := prev[b]];
      next := next[prev[b] := next[b]];
      assert prev == p0[n0[b] := p0[b]] && next == n0[p0[b] := n0[b]];
      FrontLinked(Without(order, k), prev, next, b);
      LinkFront(b);
    }
  }

  lemma FrontAll(order: seq<nat>, b: nat)
    requires b in order && (forall x :: x in Front(order, b) <==> x in order)
    ensures (forall i :: 0 <= i < |order| ==> order[i] < NBUF) ==> forall i :: 0 <= i < |order| ==>
        Front(order, b)[i] < NBUF
  {
    hide Front;
    forall i | 0 <= i < |order|
      ensures Front(order, b)[i] in order
    {
      assert Front(order, b)[i] in Front(order, b);
    }
  }

  /** A linked buffer is not its own neighbour. */
  lemma SelfSafe(order: seq<nat>, prev: seq<nat>, next: seq<nat>, k: nat)
    requires Linked(order, prev, next) && k < |order|
    ensures next[order[k]] != order[k] && prev[order[k]] != order[k]
  {
    assert LinkOk(order, prev, next, k) && LinkOk(order, prev, next, k + 1);
    NodesDiffer(order, k + 1, k);
    NodesDiffer(order, k + 2, k + 1);
  }

  lemma WithoutDrops(order: seq<nat>, k: nat)
    requires Distinct(order) && k < |order|
    ensures order[k] !in Without(order, k)
  {
  }
}
