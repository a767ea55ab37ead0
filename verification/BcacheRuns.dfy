/**
 The buffer cache under all interleavings of bread, bwrite, log_write and brelse
 (kern/bio.c, kern/log.c). Each bread in flight is a use with its own number; the
 parts of bget and brelse under bcache.lock are one step each, and so is a block
 transfer. A holder that changes the data passes it to bwrite or log_write before
 it lets go.
 */
module BcacheRuns {
  import opened Bytes
  import opened Bcache

  /** A bread between bget and the end of brelse. */
  datatype Phase =
    | Waiting                // in acquiresleep
    | Locked                 // has the sleep lock, data perhaps not read yet
    | Ready(changed: bool)   // bread returned; changed and not yet handed to bwrite or log_write
    | Leaving                // releasesleep done, reference not yet dropped
  datatype Use = Use(key: Key, b: nat, phase: Phase)

  datatype State = State(c: Cache, disk: map<Key, Block>, uses: map<nat, Use>)

  datatype Step =
    | Get(h: nat, key: Key)
    | Acquire(h: nat)
    | Fill(h: nat)
    | Change(h: nat, data: Block)
    | Bwrite(h: nat)
    | LogWrite(h: nat)
    | Unlock(h: nat)
    | Put(h: nat)

  predicate Owns(u: Use) {
    u.phase.Locked? || u.phase.Ready?
  }

  ghost predicate LockFree(s: State, b: nat) {
    forall h :: h in s.uses && s.uses[h].b == b ==> !Owns(s.uses[h])
  }

  ghost predicate StateOk(s: State) {
    CacheOk(s.c) && forall h :: h in s.uses ==> s.uses[h].b < NBUF
  }

  ghost predicate Enabled(s: State, step: Step)
    requires StateOk(s)
  {
    match step
    case Get(h, key) => h !in s.uses && key in s.disk && Pick(s.c, key).Some?
    case Acquire(h) => h in s.uses && s.uses[h].phase.Waiting? && LockFree(s, s.uses[h].b)
    case Fill(h) => h in s.uses && s.uses[h].phase.Locked? && s.c.bufs[s.uses[h].b].key in s.disk
    case Change(h, data) => h in s.uses && s.uses[h].phase.Ready?
    case Bwrite(h) => h in s.uses && s.uses[h].phase.Ready?
    case LogWrite(h) => h in s.uses && s.uses[h].phase.Ready?
    case Unlock(h) => h in s.uses && s.uses[h].phase == Ready(false)
    case Put(h) => h in s.uses && s.uses[h].phase.Leaving? && s.c.bufs[s.uses[h].b].refcnt > 0
  }

  function WithBuf(s: State, b: nat, x: Buf): State
    requires b < |s.c.bufs|
  {
    s.(c := s.c.(bufs := s.c.bufs[b := x]))
  }

  function WithPhase(s: State, h: nat, p: Phase): State
    requires h in s.uses
  {
    s.(uses := s.uses[h := s.uses[h].(phase := p)])
  }

  ghost function Next(s: State, step: Step): State
    requires StateOk(s) && Enabled(s, step)
  {
    match step
    case Get(h, key) =>
      var b := Pick(s.c, key).value;
      State(Gotten(s.c, b, key), s.disk, s.uses[h := Use(key, b, Waiting)])
    case Acquire(h) => WithPhase(s, h, Locked)
    case Fill(h) =>
      var b := s.uses[h].b;
      var x := s.c.bufs[b];
      WithPhase(if x.valid then s else WithBuf(s, b, x.(valid := true, data := s.disk[x.key])), h, Ready(false))
    case Change(h, data) =>
      var b := s.uses[h].b;
      WithPhase(WithBuf(s, b, s.c.bufs[b].(data := data)), h, Ready(true))
    case Bwrite(h) =>
      var b := s.uses[h].b;
      var x := s.c.bufs[b];
      WithPhase(WithBuf(s, b, x.(valid := true, dirty := false)).(disk := s.disk[x.key := x.data]), h, Ready(false))
    case LogWrite(h) =>
      var b := s.uses[h].b;
      WithPhase(WithBuf(s, b, s.c.bufs[b].(dirty := true)), h, Ready(false))
    case Unlock(h) => WithPhase(s, h, Leaving)
    case Put(h) => State(Released(s.c, s.uses[h].b), s.disk, s.uses - {h})
  }

  // ------------------------------------------------------------ invariant

  ghost function Users(uses: map<nat, Use>, b: nat): set<nat> {
    set h | h in uses && uses[h].b == b
  }

  predicate Active(x: Buf) {
    x.refcnt > 0 || x.valid || x.dirty
  }

  /** Of the buffers with one key only the first in the list is active. */
  ghost predicate FirstOnly(c: Cache)
    requires CacheOk(c)
  {
    forall i, j :: 0 <= i < j < NBUF && c.bufs[c.order[i]].key == c.bufs[c.order[j]].key ==> !Active(c.bufs[c.order[j]])
  }

  /** A use refers to the buffer of its block; once it may look at the data, they are there. */
  predicate UseOk(s: State, h: nat)
    requires CacheOk(s.c) && h in s.uses && s.uses[h].b < NBUF
  {
    var x := s.c.bufs[s.uses[h].b];
    x.key == s.uses[h].key && x.key in s.disk && (s.uses[h].phase.Ready? ==> x.valid)
  }

  /** Someone is in the middle of changing buffer b. */
  ghost predicate Changing(s: State, b: nat) {
    exists h :: h in s.uses && s.uses[h].b == b && s.uses[h].phase == Ready(true)
  }

  predicate SameLock(s: State, h: nat, k: nat) {
    h in s.uses && k in s.uses && s.uses[h].b == s.uses[k].b && Owns(s.uses[h]) && Owns(s.uses[k])
  }

  ghost predicate BufOk(s: State, b: nat)
    requires CacheOk(s.c) && b < NBUF
  {
    var x := s.c.bufs[b];
    && x.refcnt == |Users(s.uses, b)| && (x.dirty ==> x.valid) && (x.valid ==> x.key in s.disk)
    && (x.valid && !x.dirty && !Changing(s, b) ==> x.data == s.disk[x.key])
  }

  ghost predicate Inv(s: State) {
    && StateOk(s) && FirstOnly(s.c)
    && (forall h :: h in s.uses ==> UseOk(s, h))
    && (forall h, k :: SameLock(s, h, k) ==> h == k)
    && forall b: nat :: b < NBUF ==> BufOk(s, b)
  }

  // ------------------------------------------------------- counting users

  lemma UsersSame(uses: map<nat, Use>, h: nat, p: Phase, b: nat)
    requires h in uses
    ensures Users(uses[h := uses[h].(phase := p)], b) == Users(uses, b)
  {
  }

  lemma UsersMore(uses: map<nat, Use>, h: nat, u: Use, b: nat)
    requires h !in uses
    ensures |Users(uses[h := u], b)| == |Users(uses, b)| + if u.b == b then 1 else 0
  {
    assert Users(uses[h := u], b) == Users(uses, b) + if u.b == b then {h} else {};
  }

  lemma UsersFewer(uses: map<nat, Use>, h: nat, b: nat)
    requires h in uses
    ensures |Users(uses - {h}, b)| == |Users(uses, b)| - if uses[h].b == b then 1 else 0
  {
    assert Users(uses - {h}, b) == Users(uses, b) - if uses[h].b == b then {h} else {};
  }

  /** A buffer in use is referenced, so active; and no other buffer with its key is. */
  lemma InUse(s: State, h: nat)
    requires Inv(s) && h in s.uses
    ensures s.c.bufs[s.uses[h].b].refcnt > 0 && s.c.bufs[s.uses[h].b].key == s.uses[h].key
  {
    assert BufOk(s, s.uses[h].b) && UseOk(s, h);
    assert h in Users(s.uses, s.uses[h].b);
  }

  lemma NoUser(s: State, b: nat, h: nat)
    requires Inv(s) && b < NBUF && s.c.bufs[b].refcnt == 0 && h in s.uses
    ensures s.uses[h].b != b
  {
    assert BufOk(s, b);
    assert s.uses[h].b == b ==> h in Users(s.uses, b);
  }

  /** At most one active buffer per block. */
  lemma OneActive(s: State, a: nat, b: nat)
    requires Inv(s) && a < NBUF && b < NBUF && s.c.bufs[a].key == s.c.bufs[b].key
    requires Active(s.c.bufs[a]) && Active(s.c.bufs[b])
    ensures a == b
  {
    assert a in s.c.order && b in s.c.order;
    var i :| 0 <= i < NBUF && s.c.order[i] == a;
    var j :| 0 <= j < NBUF && s.c.order[j] == b;
    assert i < j || j < i || i == j;
  }

  lemma OthersInactive(s: State, a: nat, b: nat)
    requires Inv(s) && a < NBUF && b < NBUF && s.c.bufs[a].key == s.c.bufs[b].key && Active(s.c.bufs[a]) && a != b
    ensures !Active(s.c.bufs[b])
  {
    hide BufOk, FirstOnly;
    if Active(s.c.bufs[b]) {
      OneActive(s, a, b);
    }
  }

  // ---------------------------------------------- steps that hold the lock

  /** s with h's buffer changed in place and h in phase p. */
  function InPlace(s: State, h: nat, x: Buf, p: Phase, disk: map<Key, Block>): State
    requires StateOk(s) && h in s.uses
  {
    State(s.c.(bufs := s.c.bufs[s.uses[h].b := x]), disk, s.uses[h := s.uses[h].(phase := p)])
  }

  /** Changing a buffer in place, in its holder's hands, moves nothing else. */
  lemma InPlaceFirst(s: State, h: nat, x: Buf, p: Phase, disk: map<Key, Block>)
    requires Inv(s) && h in s.uses && x.key == s.uses[h].key && x.refcnt == s.c.bufs[s.uses[h].b].refcnt
    ensures CacheOk(InPlace(s, h, x, p, disk).c) && FirstOnly(InPlace(s, h, x, p, disk).c)
  {
    hide BufOk, UseOk;
    InUse(s, h);
    var c, c', b := s.c, InPlace(s, h, x, p, disk).c, s.uses[h].b;
    forall i, j | 0 <= i < j < NBUF && c'.bufs[c'.order[i]].key == c'.bufs[c'.order[j]].key
      ensures !Active(c'.bufs[c'.order[j]])
    {
      assert c.bufs[c.order[i]].key == c.bufs[c.order[j]].key;
    }
  }

  lemma InPlaceUses(s: State, h: nat, x: Buf, p: Phase, disk: map<Key, Block>)
    requires Inv(s) && h in s.uses && x.key == s.uses[h].key && x.refcnt == s.c.bufs[s.uses[h].b].refcnt
    requires disk.Keys == s.disk.Keys && (p.Ready? || s.c.bufs[s.uses[h].b].valid ==> x.valid)
    requires p.Locked? || p.Ready? ==> Owns(s.uses[h]) || LockFree(s, s.uses[h].b)
    ensures var s' := InPlace(s, h, x, p, disk);
            && CacheOk(s'.c) && StateOk(s') && (forall k :: k in s'.uses ==> UseOk(s', k))
            && forall k, l :: SameLock(s', k, l) ==> k == l
  {
    hide BufOk, FirstOnly;
    var s' := InPlace(s, h, x, p, disk);
    forall k | k in s'.uses
      ensures UseOk(s', k)
    {
      assert UseOk(s, k) && UseOk(s, h);
    }
    forall k, l | SameLock(s', k, l)
      ensures k == l
    {
      assert k != h && l != h ==> SameLock(s, k, l);
      assert Owns(s.uses[h]) && k == h ==> SameLock(s, h, l);
      assert Owns(s.uses[h]) && l == h ==> SameLock(s, k, h);
    }
  }

  /** What else has to hold of the buffers afterwards. */
  lemma InPlaceInv(s: State, h: nat, x: Buf, p: Phase, disk: map<Key, Block>)
    requires Inv(s) && h in s.uses && x.key == s.uses[h].key && x.refcnt == s.c.bufs[s.uses[h].b].refcnt
    requires disk.Keys == s.disk.Keys && (p.Ready? || s.c.bufs[s.uses[h].b].valid ==> x.valid)
    requires p.Locked? || p.Ready? ==> Owns(s.uses[h]) || LockFree(s, s.uses[h].b)
    requires forall b: nat :: b < NBUF ==> CacheOk(InPlace(s, h, x, p, disk).c) && BufOk(InPlace(s, h, x, p, disk), b)
    ensures Inv(InPlace(s, h, x, p, disk))
  {
    hide BufOk, FirstOnly, UseOk, InPlace, CacheOk;
    InPlaceFirst(s, h, x, p, disk);
    InPlaceUses(s, h, x, p, disk);
  }

  /** The holder's buffer after a change in place: clean and finished means written. */
  ghost predicate Settled(s: State, h: nat, x: Buf, p: Phase, disk: map<Key, Block>)
    requires StateOk(s) && h in s.uses
  {
    x.valid && !x.dirty && p != Ready(true) ==>
      || (x.key in disk && x.data == disk[x.key])
      || (x == s.c.bufs[s.uses[h].b] && disk == s.disk && s.uses[h].phase != Ready(true))
  }

  lemma InPlaceOwn(s: State, h: nat, x: Buf, p: Phase, disk: map<Key, Block>)
    requires Inv(s) && h in s.uses && x.key == s.uses[h].key && x.refcnt == s.c.bufs[s.uses[h].b].refcnt
    requires disk.Keys == s.disk.Keys && (x.dirty ==> x.valid) && CacheOk(InPlace(s, h, x, p, disk).c)
    requires Settled(s, h, x, p, disk)
    ensures BufOk(InPlace(s, h, x, p, disk), s.uses[h].b)
  {
    hide FirstOnly, Users;
    var s', a := InPlace(s, h, x, p, disk), s.uses[h].b;
    UsersSame(s.uses, h, p, a);
    assert BufOk(s, a) && UseOk(s, h);
    assert s'.c.bufs[a] == x;
    if p == Ready(true) {
      assert s'.uses[h].b == a && s'.uses[h].phase == Ready(true);
    } else if Changing(s, a) {
      var k :| k in s.uses && s.uses[k].b == a && s.uses[k].phase == Ready(true);
      assert k != h ==> s'.uses[k] == s.uses[k];
    }
  }

  lemma InPlaceOther(s: State, h: nat, x: Buf, p: Phase, disk: map<Key, Block>, b: nat)
    requires Inv(s) && h in s.uses && b < NBUF && b != s.uses[h].b
    requires disk.Keys == s.disk.Keys && CacheOk(InPlace(s, h, x, p, disk).c)
    requires forall k :: k in s.disk && k != s.uses[h].key ==> disk[k] == s.disk[k]
    ensures BufOk(InPlace(s, h, x, p, disk), b)
  {
    hide FirstOnly, Users;
    var s', a := InPlace(s, h, x, p, disk), s.uses[h].b;
    UsersSame(s.uses, h, p, b);
    InUse(s, h);
    assert BufOk(s, b) && s'.c.bufs[b] == s.c.bufs[b];
    if s.c.bufs[b].key == s.uses[h].key {
      OthersInactive(s, a, b);
    }
    if Changing(s, b) {
      var k :| k in s.uses && s.uses[k].b == b && s.uses[k].phase == Ready(true);
      assert s'.uses[k] == s.uses[k];
    }
  }

  /** Any step of the holder of a buffer on that buffer and its disk block. */
  lemma HolderStep(s: State, h: nat, x: Buf, p: Phase, disk: map<Key, Block>)
    requires Inv(s) && h in s.uses && x.key == s.uses[h].key && x.refcnt == s.c.bufs[s.uses[h].b].refcnt
    requires disk.Keys == s.disk.Keys && (p.Ready? || s.c.bufs[s.uses[h].b].valid ==> x.valid) && (x.dirty ==> x.valid)
    requires p.Locked? || p.Ready? ==> Owns(s.uses[h]) || LockFree(s, s.uses[h].b)
    requires forall k :: k in s.disk && k != s.uses[h].key ==> disk[k] == s.disk[k]
    requires Settled(s, h, x, p, disk)
    ensures Inv(InPlace(s, h, x, p, disk))
  {
    hide BufOk, FirstOnly, UseOk, InPlace, Settled;
    InPlaceFirst(s, h, x, p, disk);
    forall b: nat | b < NBUF
      ensures BufOk(InPlace(s, h, x, p, disk), b)
    {
      if b == s.uses[h].b { InPlaceOwn(s, h, x, p, disk); } else { InPlaceOther(s, h, x, p, disk, b); }
    }
    InPlaceInv(s, h, x, p, disk);
  }

  lemma HolderInv(s: State, step: Step)
    requires Inv(s) && Enabled(s, step) && !step.Get? && !step.Put?
    ensures Inv(Next(s, step))
  {
    hide BufOk, FirstOnly, CacheOk, Users;
    var h := step.h;
    InUse(s, h);
    assert UseOk(s, h) && StateOk(s);
    var b := s.uses[h].b;
    assert BufOk(s, b);
    BufFacts(s, b);
    var x := s.c.bufs[b];
    assert s.c.bufs[b := x] == s.c.bufs;
    match step {
      case Acquire(_) => HolderStep(s, h, x, Locked, s.disk);
      case Fill(_) =>
          HolderStep(s, h, if x.valid then x else x.(valid := true, data := s.disk[x.key]), Ready(false), s.disk);
      case Change(_, data) => HolderStep(s, h, x.(data := data), Ready(true), s.disk);
      case Bwrite(_) => HolderStep(s, h, x.(valid := true, dirty := false), Ready(false), s.disk[x.key := x.data]);
      case LogWrite(_) => HolderStep(s, h, x.(dirty := true), Ready(false), s.disk);
      case Unlock(_) => HolderStep(s, h, x, Leaving, s.disk);
    }
  }

  lemma BufFacts(s: State, b: nat)
    requires CacheOk(s.c) && b < NBUF && BufOk(s, b)
    ensures |s.c.bufs| == NBUF && (s.c.bufs[b].dirty ==> s.c.bufs[b].valid)
  {
  }

  // ---------------------------------------------------------- bget, brelse

  lemma GetFirst(s: State, key: Key)
    requires Inv(s) && Pick(s.c, key).Some?
    ensures CacheOk(Gotten(s.c, Pick(s.c, key).value, key)) && FirstOnly(Gotten(s.c, Pick(s.c, key).value, key))
  {
    hide BufOk, UseOk, Pick, First;
    var c, b := s.c, Pick(s.c, key).value;
    var c' := Gotten(c, b, key);
    PickIs(c, key);
    forall i, j | 0 <= i < j < NBUF && c'.bufs[c'.order[i]].key == c'.bufs[c'.order[j]].key
      ensures !Active(c'.bufs[c'.order[j]])
    {
      if c.bufs[b].key == key {
        var k :| 0 <= k < NBUF && c.order[k] == b && FirstAt(c, key, k);
        assert c.order[j] == b ==> j == k;
      }
    }
  }

  /** A buffer that bget gives a new block to has no user: a referenced or dirty buffer is never recycled. */
  lemma NeverRecycled(s: State, key: Key, h: nat)
    requires Inv(s) && Pick(s.c, key).Some? && h in s.uses
    ensures s.uses[h].b == Pick(s.c, key).value ==> key == s.uses[h].key
  {
    hide BufOk, FirstOnly, Pick;
    var b := Pick(s.c, key).value;
    PickIs(s.c, key);
    InUse(s, h);
  }

  lemma GetBuf(s: State, h: nat, key: Key, b: nat)
    requires Inv(s) && Enabled(s, Get(h, key)) && b < NBUF && CacheOk(Next(s, Get(h, key)).c)
    ensures BufOk(Next(s, Get(h, key)), b)
  {
    hide FirstOnly, UseOk, Pick, Users;
    var a := Pick(s.c, key).value;
    var s' := Next(s, Get(h, key));
    PickIs(s.c, key);
    UsersMore(s.uses, h, Use(key, a, Waiting), b);
    assert BufOk(s, b);
    if Changing(s, b) {
      var k :| k in s.uses && s.uses[k].b == b && s.uses[k].phase == Ready(true);
      assert s'.uses[k] == s.uses[k];
    }
  }

  lemma GetInv(s: State, h: nat, key: Key)
    requires Inv(s) && Enabled(s, Get(h, key))
    ensures Inv(Next(s, Get(h, key)))
  {
    hide BufOk, FirstOnly, Pick, Users;
    var s' := Next(s, Get(h, key));
    GetFirst(s, key);
    PickIs(s.c, key);
    forall k | k in s'.uses
      ensures UseOk(s', k)
    {
      if k != h {
        assert UseOk(s, k);
        NeverRecycled(s, key, k);
      }
    }
    forall k, l | SameLock(s', k, l)
      ensures k == l
    {
      assert SameLock(s, k, l);
    }
    forall b: nat | b < NBUF
      ensures BufOk(s', b)
    {
      GetBuf(s, h, key, b);
    }
  }

  lemma PutFirst(s: State, h: nat)
    requires Inv(s) && h in s.uses && s.c.bufs[s.uses[h].b].refcnt > 0
    ensures s.uses[h].b in s.c.order
    ensures CacheOk(Released(s.c, s.uses[h].b)) && FirstOnly(Released(s.c, s.uses[h].b))
  {
    hide BufOk, UseOk, Front;
    var c, b := s.c, s.uses[h].b;
    assert b in c.order;
    FrontKeeps(c.order, b);
    var c' := Released(c, b);
    forall x | 0 <= x < NBUF
      ensures c'.order[x] < NBUF
    {
      assert c'.order[x] in c'.order;
      assert c'.order[x] in c.order;
    }
    if c'.order != c.order {
      forall i, j | 0 <= i < j < NBUF && c'.bufs[c'.order[i]].key == c'.bufs[c'.order[j]].key
        ensures !Active(c'.bufs[c'.order[j]])
      {
        if i == 0 {
          OthersInactive(s, b, c'.order[j]);
        } else {
          FrontAt(c.order, b, i);
          FrontAt(c.order, b, j);
        }
      }
    }
  }

  lemma PutBuf(s: State, h: nat, b: nat)
    requires Inv(s) && Enabled(s, Put(h)) && b < NBUF && s.uses[h].b in s.c.order && CacheOk(Next(s, Put(h)).c)
    ensures BufOk(Next(s, Put(h)), b)
  {
    hide FirstOnly, UseOk, Users, Front;
    var s' := Next(s, Put(h));
    UsersFewer(s.uses, h, b);
    assert BufOk(s, b);
    if Changing(s, b) {
      var k :| k in s.uses && s.uses[k].b == b && s.uses[k].phase == Ready(true);
      assert s'.uses[k] == s.uses[k];
    }
  }

  lemma PutInv(s: State, h: nat)
    requires Inv(s) && Enabled(s, Put(h))
    ensures Inv(Next(s, Put(h)))
  {
    hide BufOk, FirstOnly, Users, Front;
    PutFirst(s, h);
    var s' := Next(s, Put(h));
    forall k | k in s'.uses
      ensures UseOk(s', k)
    {
      assert UseOk(s, k);
    }
    forall k, l | SameLock(s', k, l)
      ensures k == l
    {
      assert SameLock(s, k, l);
    }
    forall b: nat | b < NBUF
      ensures BufOk(s', b)
    {
      PutBuf(s, h, b);
    }
  }

  lemma StepInv(s: State, step: Step)
    requires Inv(s) && Enabled(s, step)
    ensures Inv(Next(s, step))
  {
    hide Inv, Next, Enabled;
    match step {
      case Get(h, key) => GetInv(s, h, key);
      case Put(h) => PutInv(s, h);
      case _ => HolderInv(s, step);
    }
  }

  // ----------------------------------------------------------- whole runs

  /** s leads to t by the given steps. */
  ghost predicate Reaches(s: State, steps: seq<Step>, t: State)
    decreases |steps|
  {
    if steps == [] then s == t
    else StateOk(s) && Enabled(s, steps[0]) && Reaches(Next(s, steps[0]), steps[1..], t)
  }

  /** After binit: no bread in flight, nothing cached. */
  ghost predicate Init(s: State) {
    CacheOk(s.c) && s.uses == map[] && forall b :: 0 <= b < NBUF ==> s.c.bufs[b] == FRESHBUF
  }

  lemma InitInv(s: State)
    requires Init(s)
    ensures Inv(s)
  {
    forall b: nat | b < NBUF
      ensures BufOk(s, b)
    {
      assert Users(s.uses, b) == {};
    }
  }

  lemma {:induction false} RunInv(s: State, steps: seq<Step>, t: State)
    requires Inv(s) && Reaches(s, steps, t)
    ensures Inv(t)
    decreases |steps|
  {
    hide Inv, Enabled, Next;
    if steps != [] {
      InvIsOk(s);
      StepInv(s, steps[0]);
      RunInv(Next(s, steps[0]), steps[1..], t);
    }
  }

  lemma InvIsOk(s: State)
    requires Inv(s)
    ensures StateOk(s)
  {
  }

  /** In every run at most one valid or referenced buffer holds a block. */
  lemma OneBufferPerBlock(s: State, steps: seq<Step>, t: State, a: nat, b: nat)
    requires Init(s) && Reaches(s, steps, t) && a < NBUF && b < NBUF
    ensures CacheOk(t.c)
    ensures t.c.bufs[a].key == t.c.bufs[b].key && Active(t.c.bufs[a]) && Active(t.c.bufs[b]) ==> a == b
  {
    hide Reaches, Init, FirstOnly, UseOk, BufOk;
    InitInv(s);
    RunInv(s, steps, t);
    if t.c.bufs[a].key == t.c.bufs[b].key && Active(t.c.bufs[a]) && Active(t.c.bufs[b]) {
      OneActive(t, a, b);
    }
  }

  /** In every run a valid, clean buffer that nobody has locked equals its disk block. */
  lemma CleanIsOnDisk(s: State, steps: seq<Step>, t: State, b: nat)
    requires Init(s) && Reaches(s, steps, t) && b < NBUF && LockFree(t, b)
    ensures CacheOk(t.c)
    ensures t.c.bufs[b].valid && !t.c.bufs[b].dirty ==>
      t.c.bufs[b].key in t.disk && t.c.bufs[b].data == t.disk[t.c.bufs[b].key]
  {
    hide Reaches, Init, FirstOnly, UseOk;
    InitInv(s);
    RunInv(s, steps, t);
    assert BufOk(t, b);
  }

  /** In every run a bread that returned has its own block's buffer, valid, with the sleep lock to itself. */
  lemma ReadyHasBlock(s: State, steps: seq<Step>, t: State, h: nat)
    requires Init(s) && Reaches(s, steps, t) && h in t.uses && t.uses[h].phase.Ready?
    ensures t.uses[h].b < NBUF && CacheOk(t.c) && t.c.bufs[t.uses[h].b].key == t.uses[h].key
    ensures t.c.bufs[t.uses[h].b].valid
    ensures forall k :: k in t.uses && t.uses[k].b == t.uses[h].b && Owns(t.uses[k]) ==> k == h
    ensures t.c.bufs[t.uses[h].b].refcnt > 0
  {
    hide Reaches, Init, FirstOnly, BufOk;
    InitInv(s);
    RunInv(s, steps, t);
    InUse(t, h);
    assert UseOk(t, h);
    forall k | k in t.uses && t.uses[k].b == t.uses[h].b && Owns(t.uses[k])
      ensures k == h
    {
      assert SameLock(t, h, k);
    }
  }

  // ------------------------------------------ the cache refines a memory

  /** The block's contents are x: in its valid buffer if it has one, on disk otherwise. */
  ghost predicate Shows(s: State, key: Key, x: Block)
    requires CacheOk(s.c)
  {
    && (forall b: nat :: b < NBUF && s.c.bufs[b].key == key && s.c.bufs[b].valid ==> s.c.bufs[b].data == x)
    && ((forall b: nat :: b < NBUF && s.c.bufs[b].key == key ==> !s.c.bufs[b].valid) ==>
        key in s.disk && s.disk[key] == x)
  }

  /** The memory a run's Change steps describe. */
  ghost function Written(s: State, step: Step, key: Key, x: Block): Block
    requires StateOk(s) && Enabled(s, step)
  {
    if step.Change? && s.uses[step.h].key == key then step.data else x
  }

  lemma OneValid(s: State, h: nat)
    requires Inv(s) && h in s.uses
    ensures forall b: nat :: b < NBUF && s.c.bufs[b].key == s.uses[h].key && s.c.bufs[b].valid ==> b == s.uses[h].b
    ensures s.c.bufs[s.uses[h].b].key == s.uses[h].key
  {
    hide BufOk, UseOk, FirstOnly;
    InUse(s, h);
    forall b: nat | b < NBUF && s.c.bufs[b].key == s.uses[h].key && s.c.bufs[b].valid
      ensures b == s.uses[h].b
    {
      OneActive(s, s.uses[h].b, b);
    }
  }

  lemma HolderShows(s: State, step: Step, key: Key, x: Block)
    requires Inv(s) && Enabled(s, step) && !step.Get? && !step.Put? && Shows(s, key, x)
    ensures CacheOk(Next(s, step).c) && Shows(Next(s, step), key, Written(s, step, key, x))
  {
    hide BufOk, FirstOnly;
    var h := step.h;
    OneValid(s, h);
    assert UseOk(s, h);
    var b, s' := s.uses[h].b, Next(s, step);
    assert forall a: nat :: a < NBUF && a != b ==> s'.c.bufs[a] == s.c.bufs[a];
    assert s'.c.bufs[b].key == s.uses[h].key;
    if key == s.uses[h].key && !step.Acquire? && !step.Unlock? {
      assert s'.c.bufs[b].valid;
      assert s'.c.bufs[b].data == Written(s, step, key, x);
    }
  }

  lemma GetShows(s: State, h: nat, to: Key, key: Key, x: Block)
    requires Inv(s) && Enabled(s, Get(h, to)) && Shows(s, key, x)
    ensures CacheOk(Next(s, Get(h, to)).c) && Shows(Next(s, Get(h, to)), key, x)
  {
    hide FirstOnly, UseOk, Pick, Users;
    var b, s' := Pick(s.c, to).value, Next(s, Get(h, to));
    PickIs(s.c, to);
    forall a: nat | a < NBUF
      ensures a != b ==> s'.c.bufs[a] == s.c.bufs[a]
      ensures s.c.bufs[b].key == to ==> s'.c.bufs[a].key == s.c.bufs[a].key && s'.c.bufs[a].valid == s.c.bufs[a].valid
      ensures s.c.bufs[b].key == to ==> s'.c.bufs[a].data == s.c.bufs[a].data
    {
    }
    if s.c.bufs[b].key == to {
      assert (forall a: nat :: a < NBUF && s'.c.bufs[a].key == key ==> !s'.c.bufs[a].valid) ==>
          forall a: nat :: a < NBUF && s.c.bufs[a].key == key ==> !s.c.bufs[a].valid;
    } else if key == s.c.bufs[b].key && s.c.bufs[b].valid {
      Evicted(s, b);
      forall a: nat | a < NBUF && a != b && s.c.bufs[a].key == key
        ensures !s.c.bufs[a].valid
      {
        OthersInactive(s, b, a);
      }
    }
  }

  /** An unused valid buffer holds what is on disk. */
  lemma Evicted(s: State, b: nat)
    requires Inv(s) && b < NBUF && Unused(s.c.bufs[b]) && s.c.bufs[b].valid
    ensures s.c.bufs[b].key in s.disk && s.c.bufs[b].data == s.disk[s.c.bufs[b].key]
  {
    hide FirstOnly, UseOk;
    assert BufOk(s, b);
    if Changing(s, b) {
      var k :| k in s.uses && s.uses[k].b == b && s.uses[k].phase == Ready(true);
      NoUser(s, b, k);
    }
  }

  lemma PutShows(s: State, h: nat, key: Key, x: Block)
    requires Inv(s) && Enabled(s, Put(h)) && Shows(s, key, x)
    ensures s.uses[h].b in s.c.order && CacheOk(Next(s, Put(h)).c) && Shows(Next(s, Put(h)), key, x)
  {
    hide BufOk, FirstOnly, UseOk, Front;
    PutFirst(s, h);
    var s' := Next(s, Put(h));
    assert forall a: nat :: a < NBUF ==> s'.c.bufs[a] == s.c.bufs[a].(refcnt := s'.c.bufs[a].refcnt);
  }

  /** A step changes the contents of a block only if it is a holder's change to that block. */
  lemma StepShows(s: State, step: Step, key: Key, x: Block)
    requires Inv(s) && Enabled(s, step) && Shows(s, key, x)
    ensures CacheOk(Next(s, step).c) && Shows(Next(s, step), key, Written(s, step, key, x))
  {
    hide Inv, Next, Enabled, Shows, CacheOk;
    InvIsOk(s);
    match step {
      case Get(h, to) => GetShows(s, h, to, key, x);
      case Put(h) => PutShows(s, h, key, x);
      case _ => HolderShows(s, step, key, x);
    }
  }

  /** A block's contents after a run, if they were x: the last change made by a holder. */
  ghost function Replay(s: State, steps: seq<Step>, t: State, key: Key, x: Block): Block
    requires Reaches(s, steps, t)
    decreases |steps|
  {
    if steps == [] then x else Replay(Next(s, steps[0]), steps[1..], t, key, Written(s, steps[0], key, x))
  }

  /** The cache refines a memory of blocks: eviction and refetching never show. */
  lemma {:induction false} CacheIsMemory(s: State, steps: seq<Step>, t: State, key: Key, x: Block)
    requires Inv(s) && Reaches(s, steps, t) && Shows(s, key, x)
    ensures CacheOk(t.c) && Shows(t, key, Replay(s, steps, t, key, x))
    decreases |steps|
  {
    hide Inv, Next, Enabled, Shows, CacheOk, Written;
    InvIsOk(s);
    if steps != [] {
      StepInv(s, steps[0]);
      StepShows(s, steps[0], key, x);
      CacheIsMemory(Next(s, steps[0]), steps[1..], t, key, Written(s, steps[0], key, x));
    }
  }
}
