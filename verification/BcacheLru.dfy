/**
 Which buffer bget gives up (kern/bio.c): in every run the list is in the order in
 which the buffers were last let go by all their users, so the buffer recycled is
 the unused one that has been left alone the longest.
 */
module BcacheLru {
  import opened Basics
  import opened Bcache
  import opened BcacheRuns

  /** What a step adds to the buffers let go so far: one, if its last user leaves. */
  ghost function Noted(uses: map<nat, Use>, step: Step, freed: seq<nat>): seq<nat> {
    if step.Put? && step.h in uses && Users(uses, uses[step.h].b) == {step.h} then freed + [uses[step.h].b] else freed
  }

  /** The buffers that lost their last user in a run, in order. */
  ghost function Freed(s: State, steps: seq<Step>, t: State, freed: seq<nat>): seq<nat>
    requires Reaches(s, steps, t)
    decreases |steps|
  {
    if steps == [] then freed else Freed(Next(s, steps[0]), steps[1..], t, Noted(s.uses, steps[0], freed))
  }

  /** When b was last let go, from 1 on; 0 if never. */
  function LastTime(freed: seq<nat>, b: nat): (n: nat)
    ensures n <= |freed| && (n > 0 <==> b in freed)
    ensures n > 0 ==> freed[n - 1] == b && b !in freed[n..]
  {
    if freed == [] then 0 else
      var n := |freed| - 1;
      if freed[n] == b then |freed| else LastTime(freed[..n], b)
  }

  /** a was let go after b; of two that never were, a comes first in the list that binit made. */
  ghost predicate Newer(freed: seq<nat>, start: seq<nat>, a: nat, b: nat) {
    || LastTime(freed, a) > LastTime(freed, b)
    || (LastTime(freed, a) == LastTime(freed, b) == 0
        && exists i, j :: 0 <= i < j < |start| && start[i] == a && start[j] == b)
  }

  /** The list is in that order. */
  ghost predicate ByTime(freed: seq<nat>, start: seq<nat>, order: seq<nat>) {
    forall i, j :: 0 <= i < j < |order| ==> Newer(freed, start, order[i], order[j])
  }

  lemma TimeNext(freed: seq<nat>, b: nat, a: nat)
    ensures LastTime(freed + [b], a) == if a == b then |freed| + 1 else LastTime(freed, a)
  {
    assert (freed + [b])[..|freed|] == freed;
  }

  /** Moving the buffer let go to the front keeps the list in order. */
  lemma FrontByTime(freed: seq<nat>, start: seq<nat>, order: seq<nat>, b: nat)
    requires ByTime(freed, start, order) && Distinct(order) && b in order
    ensures ByTime(freed + [b], start, Front(order, b))
  {
    hide Front, IndexOf, LastTime;
    var f := Front(order, b);
    FrontKeeps(order, b);
    forall i, j | 0 <= i < j < |f|
      ensures Newer(freed + [b], start, f[i], f[j])
    {
      FrontAt(order, b, i);
      FrontAt(order, b, j);
      TimeNext(freed, b, f[i]);
      TimeNext(freed, b, f[j]);
      if i > 0 {
        assert f[i] != f[0] && f[j] != f[0];
      }
    }
  }

  /** A step moves a buffer just when its last user leaves. */
  lemma StepByTime(s: State, step: Step, freed: seq<nat>, start: seq<nat>)
    requires Inv(s) && Enabled(s, step) && ByTime(freed, start, s.c.order)
    ensures ByTime(Noted(s.uses, step, freed), start, Next(s, step).c.order)
  {
    hide ByTime, FirstOnly, UseOk, Front, Users, Pick;
    if step.Put? {
      var b := s.uses[step.h].b;
      assert BufOk(s, b);
      OnlyUser(s.uses, step.h);
      assert b in s.c.order;
      if s.c.bufs[b].refcnt == 1 {
        FrontByTime(freed, start, s.c.order, b);
      }
    }
  }

  lemma OnlyUser(uses: map<nat, Use>, h: nat)
    requires h in uses
    ensures Users(uses, uses[h].b) == {h} <==> |Users(uses, uses[h].b)| == 1
  {
    var u := Users(uses, uses[h].b);
    assert h in u;
    if |u| == 1 {
      assert u == {h} + (u - {h});
      assert |u| == 1 + |u - {h}|;
    }
  }

  lemma {:induction false} RunByTime(s: State, steps: seq<Step>, t: State, freed: seq<nat>, start: seq<nat>)
    requires Inv(s) && Reaches(s, steps, t) && ByTime(freed, start, s.c.order)
    ensures ByTime(Freed(s, steps, t, freed), start, t.c.order)
    decreases |steps|
  {
    hide Inv, Enabled, Next, ByTime, Noted;
    if steps != [] {
      InvIsOk(s);
      StepInv(s, steps[0]);
      StepByTime(s, steps[0], freed, start);
      RunByTime(Next(s, steps[0]), steps[1..], t, Noted(s.uses, steps[0], freed), start);
    }
  }

  lemma NoneFreed(order: seq<nat>)
    ensures ByTime([], order, order)
  {
  }

  /** In every run the list is in the order of last release. */
  lemma ListIsByTime(s: State, steps: seq<Step>, t: State)
    requires Init(s) && Reaches(s, steps, t)
    ensures ByTime(Freed(s, steps, t, []), s.c.order, t.c.order)
  {
    hide Init, Inv, Reaches, ByTime;
    InitInv(s);
    NoneFreed(s.c.order);
    RunByTime(s, steps, t, [], s.c.order);
  }

  /** In every run a block that is not cached gets the unused buffer that was let go the longest ago. */
  lemma EvictsOldest(s: State, steps: seq<Step>, t: State, key: Key, a: nat)
    requires Init(s) && Reaches(s, steps, t) && CacheOk(t.c) && Pick(t.c, key).Some?
    requires forall b: nat :: b < NBUF ==> t.c.bufs[b].key != key
    requires a < NBUF && Unused(t.c.bufs[a]) && a != Pick(t.c, key).value
    ensures Unused(t.c.bufs[Pick(t.c, key).value])
    ensures Newer(Freed(s, steps, t, []), s.c.order, a, Pick(t.c, key).value)
  {
    hide Init, Reaches, Newer, Freed;
    ListIsByTime(s, steps, t);
    var k, u := First(t.c, key, 0), LastUnused(t.c, NBUF);
    assert a in t.c.order;
    var i :| 0 <= i < NBUF && t.c.order[i] == a;
    assert i < u.value;
  }
}
