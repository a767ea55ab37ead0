/**
 The firmware memory map: kern/bootinfo.c sorts it in place, kern/kalloc.c
 measures it. Addresses are bytes; base + length does not wrap.
 */
module BootInfo {
  datatype Range = Range(base: nat, length: nat, kind: nat)

  const RAM: nat := 1  // FNU_MEM_RAM

  function End(r: Range): nat {
    r.base + r.length
  }

  predicate Sorted(s: seq<Range>) {
    forall i, j :: 0 <= i < j < |s| ==> s[i].base <= s[j].base
  }

  /** Element i moved down to place j. */
  function Inserted(s: seq<Range>, i: nat, j: nat): (r: seq<Range>)
    requires j <= i < |s|
    ensures |r| == |s|
    ensures forall k :: 0 <= k < |s| ==>
      r[k] == if k < j then s[k] else if k == j then s[i] else if k <= i then s[k - 1] else s[k]
  {
    s[..j] + [s[i]] + s[j..i] + s[i + 1..]
  }

  lemma InsertedIsPermutation(s: seq<Range>, i: nat, j: nat)
    requires j <= i < |s|
    ensures multiset(Inserted(s, i, j)) == multiset(s)
  {
    assert s == s[..j] + s[j..i] + [s[i]] + s[i + 1..];
  }

  /** Dropping element i below everything larger in a sorted prefix extends the sorted prefix. */
  lemma InsertedIsSorted(s: seq<Range>, i: nat, j: nat)
    requires j <= i < |s| && Sorted(s[..i])
    requires j > 0 ==> s[j - 1].base <= s[i].base
    requires forall k :: j <= k < i ==> s[k].base > s[i].base
    ensures Sorted(Inserted(s, i, j)[..i + 1])
  {
    var r, p := Inserted(s, i, j), s[..i];
    forall a, b | 0 <= a < b < i + 1
      ensures r[a].base <= r[b].base
    {
      InsertedAt(s, i, j, a);
      InsertedAt(s, i, j, b);
      if a < j && b == j {
        assert a < j - 1 ==> p[a].base <= p[j - 1].base;
      }
    }
  }

  lemma InsertedAt(s: seq<Range>, i: nat, j: nat, k: nat)
    requires j <= i < |s| && k <= i
    ensures Inserted(s, i, j)[k] == if k < j then s[..i][k] else if k == j then s[i] else s[..i][k - 1]
  {
  }

  /** bootinfo_init's insertion sort of info.mem[0..n). */
  method SortRanges(mem: array<Range>, n: nat)
    requires n <= mem.Length
    modifies mem
    ensures Sorted(mem[..n]) && multiset(mem[..n]) == multiset(old(mem[..n]))
    ensures mem[n..] == old(mem[n..])
  {
    var i := 1;
    while i < n
      invariant 1 <= i && (i <= n || n == 0)
      invariant n > 0 ==> Sorted(mem[..i])
      invariant multiset(mem[..n]) == multiset(old(mem[..n]))
      invariant mem[n..] == old(mem[n..])
    {
      InsertStep(mem, n, i);
      i := i + 1;
    }
  }

  /** One turn of the outer loop. */
  method InsertStep(mem: array<Range>, n: nat, i: nat)
    requires 0 < i < n <= mem.Length && Sorted(mem[..i])
    modifies mem
    ensures Sorted(mem[..i + 1]) && multiset(mem[..n]) == multiset(old(mem[..n]))
    ensures mem[n..] == old(mem[n..])
  {
    ghost var s := mem[..];
    var t := mem[i];
    var j := i;
    while j > 0 && mem[j - 1].base > t.base
      invariant 0 <= j <= i
      invariant forall k :: 0 <= k < j ==> mem[k] == s[k]
      invariant forall k :: j < k <= i ==> mem[k] == s[k - 1]
      invariant forall k :: i < k < mem.Length ==> mem[k] == s[k]
      invariant forall k :: j <= k < i ==> s[k].base > t.base
    {
      mem[j] := mem[j - 1];
      j := j - 1;
    }
    mem[j] := t;
    assert mem[..] == Inserted(s, i, j);
    Placed(s, i, j, n, mem[..]);
  }

  lemma Placed(s: seq<Range>, i: nat, j: nat, n: nat, r: seq<Range>)
    requires j <= i < n <= |s| && Sorted(s[..i]) && r == Inserted(s, i, j)
    requires j > 0 ==> s[j - 1].base <= s[i].base
    requires forall k :: j <= k < i ==> s[k].base > s[i].base
    ensures Sorted(r[..i + 1]) && multiset(r[..n]) == multiset(s[..n]) && r[n..] == s[n..]
  {
    InsertedIsSorted(s, i, j);
    InsertedIsPermutation(s[..n], i, j);
    InsertedPrefix(s, i, j, n);
  }

  lemma InsertedPrefix(s: seq<Range>, i: nat, j: nat, n: nat)
    requires j <= i < n <= |s|
    ensures Inserted(s, i, j)[..n] == Inserted(s[..n], i, j)
    ensures Inserted(s, i, j)[n..] == s[n..]
  {
    hide Inserted;
    var r, q := Inserted(s, i, j), Inserted(s[..n], i, j);
    forall k | 0 <= k < n
      ensures r[..n][k] == q[k]
    {
      InsertedAny(s, i, j, k);
      InsertedAny(s[..n], i, j, k);
    }
    forall k | n <= k < |s|
      ensures r[k] == s[k]
    {
      InsertedAny(s, i, j, k);
    }
  }

  lemma InsertedAny(s: seq<Range>, i: nat, j: nat, k: nat)
    requires j <= i < |s| && k < |s|
    ensures Inserted(s, i, j)[k] == if k < j then s[k] else if k == j then s[i] else if k <= i then s[k - 1] else s[k]
  {
  }
}
