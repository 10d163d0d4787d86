/** Warehouse discovery: list the SQL warehouses and pick the one to query with,
    preferring a running warehouse, then a starting one, then any. */
module Discovery {
  import opened Wrappers
  import opened Listings
  import opened Remote

  /** `getStatePriority`: lower is preferred. */
  function StatePriority(s: WarehouseState): (p: nat)
    ensures p <= 2
    ensures p == 0 <==> s == Running
    ensures p == 1 <==> s == Starting
  {
    match s
    case Running => 0
    case Starting => 1
    case _ => 2
  }

  function Priority(w: Warehouse): nat
  {
    StatePriority(w.state)
  }

  /** `ListWarehouses`: every warehouse in iteration order, or an error and no list at
      all when the iteration fails at any point. */
  method ListWarehouses(l: Listing<Warehouse>) returns (r: Result<seq<Warehouse>>)
    ensures l.fails <==> r.Err?
    ensures r.Err? ==> r.message == "error iterating warehouses"
    ensures r.Ok? ==> r.value == l.items
  {
    var all := DrainAll(l);
    if all.None? {
      return Err("error iterating warehouses");
    }
    return Ok(all.value);
  }

  /** The warehouses of `s` whose priority is `p`, in their order in `s`. */
  function WithPriority(s: seq<Warehouse>, p: nat): (r: seq<Warehouse>)
    ensures |r| <= |s|
    ensures forall i :: 0 <= i < |r| ==> Priority(r[i]) == p
  {
    if s == [] then []
    else WithPriority(s[..|s| - 1], p) + (if Priority(s[|s| - 1]) == p then [s[|s| - 1]] else [])
  }

  /** What a stable sort by priority makes of `s`: with three priority values, the
      running warehouses, then the starting ones, then the rest, each group in the
      order of `s`. `StableByPriorityIsSortedPermutation` shows it is a sort. */
  function StableByPriority(s: seq<Warehouse>): (r: seq<Warehouse>)
    ensures |r| == |s|
  {
    ClassSizes(s);
    WithPriority(s, 0) + WithPriority(s, 1) + WithPriority(s, 2)
  }

  lemma {:induction false} ClassSizes(s: seq<Warehouse>)
    ensures |WithPriority(s, 0)| + |WithPriority(s, 1)| + |WithPriority(s, 2)| == |s|
  {
    if s != [] {
      ClassSizes(s[..|s| - 1]);
    }
  }

  lemma {:induction false} ClassesPermute(s: seq<Warehouse>)
    ensures multiset(StableByPriority(s)) == multiset(s)
  {
    if s != [] {
      var init, x := s[..|s| - 1], s[|s| - 1];
      ClassesPermute(init);
      assert s == init + [x];
      StableAppend(init, x);
      InsertKeepsMultiset(WithPriority(init, 0), WithPriority(init, 1), WithPriority(init, 2), x);
    }
  }

  /** Adding `x` to the end of any one of three groups adds `x` to their multiset. */
  lemma InsertKeepsMultiset(f0: seq<Warehouse>, f1: seq<Warehouse>, f2: seq<Warehouse>, x: Warehouse)
    ensures multiset((f0 + [x]) + f1 + f2) == multiset(f0 + f1 + f2) + multiset{x}
    ensures multiset(f0 + (f1 + [x]) + f2) == multiset(f0 + f1 + f2) + multiset{x}
    ensures multiset(f0 + f1 + (f2 + [x])) == multiset(f0 + f1 + f2) + multiset{x}
  {
  }

  /** The stable order is ordered by priority and holds the same warehouses. */
  lemma StableByPriorityIsSortedPermutation(s: seq<Warehouse>)
    ensures forall i, j :: 0 <= i < j < |s| ==> Priority(StableByPriority(s)[i]) <= Priority(StableByPriority(s)[j])
    ensures multiset(StableByPriority(s)) == multiset(s)
  {
    ClassesPermute(s);
    forall i | 0 <= i < |s| {
      StablePosition(s, i);
    }
  }

  lemma WithPriorityAppend(s: seq<Warehouse>, x: Warehouse, p: nat)
    ensures Priority(x) == p ==> WithPriority(s + [x], p) == WithPriority(s, p) + [x]
    ensures Priority(x) != p ==> WithPriority(s + [x], p) == WithPriority(s, p)
  {
    assert (s + [x])[..|s|] == s;
    assert WithPriority(s, p) + [] == WithPriority(s, p);
  }

  /** Position `i` of the stable order holds a warehouse of the priority class that
      position falls in. */
  lemma StablePosition(s: seq<Warehouse>, i: int)
    requires 0 <= i < |s|
    ensures var n0, n1 := |WithPriority(s, 0)|, |WithPriority(s, 1)|;
      Priority(StableByPriority(s)[i]) == (if i < n0 then 0 else if i < n0 + n1 then 1 else 2)
  {
    var f0, f1, f2 := WithPriority(s, 0), WithPriority(s, 1), WithPriority(s, 2);
    var b := StableByPriority(s);
    if i < |f0| {
      assert b[i] == f0[i];
    } else if i < |f0| + |f1| {
      assert b[i] == f1[i - |f0|];
    } else {
      assert b[i] == f2[i - |f0| - |f1|];
    }
  }

  /** Appending `x` to the input appends it to the end of its own priority class. */
  lemma StableAppend(s: seq<Warehouse>, x: Warehouse)
    ensures var f0, f1, f2 := WithPriority(s, 0), WithPriority(s, 1), WithPriority(s, 2);
      StableByPriority(s + [x]) ==
        if Priority(x) == 0 then (f0 + [x]) + f1 + f2
        else if Priority(x) == 1 then f0 + (f1 + [x]) + f2
        else f0 + f1 + (f2 + [x])
  {
    WithPriorityAppend(s, x, 0);
    WithPriorityAppend(s, x, 1);
    WithPriorityAppend(s, x, 2);
    ClassSizes(s);
  }

  /** The insertion index lies at the end of the class of `x` in the stable order. */
  lemma InsertionIndex(s: seq<Warehouse>, x: Warehouse, j: nat)
    requires j <= |s|
    requires j == 0 || Priority(StableByPriority(s)[j - 1]) <= Priority(x)
    requires forall k :: j <= k < |s| ==> Priority(StableByPriority(s)[k]) > Priority(x)
    ensures var n0, n1 := |WithPriority(s, 0)|, |WithPriority(s, 1)|;
      j == if Priority(x) == 0 then n0 else if Priority(x) == 1 then n0 + n1 else |s|
  {
    ClassSizes(s);
    if j < |s| { StablePosition(s, j); }
    if j > 0 { StablePosition(s, j - 1); }
  }

  /** Where insertion sort puts `x` when it extends the stable order of `s`: after
      every warehouse of priority at most that of `x`. */
  lemma InsertionPoint(s: seq<Warehouse>, x: Warehouse, j: nat)
    requires j <= |s|
    requires j == 0 || Priority(StableByPriority(s)[j - 1]) <= Priority(x)
    requires forall k :: j <= k < |s| ==> Priority(StableByPriority(s)[k]) > Priority(x)
    ensures StableByPriority(s)[..j] + [x] + StableByPriority(s)[j..] == StableByPriority(s + [x])
  {
    var b := StableByPriority(s);
    var f0, f1, f2 := WithPriority(s, 0), WithPriority(s, 1), WithPriority(s, 2);
    assert b == f0 + f1 + f2;
    InsertionIndex(s, x, j);
    StableAppend(s, x);
    if Priority(x) == 0 {
      InsertAfterFirst(f0, f1, f2, x);
    } else if Priority(x) == 1 {
      InsertAfterSecond(f0, f1, f2, x);
    } else {
      InsertAfterThird(f0, f1, f2, x);
    }
  }

  lemma InsertAfterFirst<T>(a: seq<T>, b: seq<T>, c: seq<T>, x: T)
    ensures (a + b + c)[..|a|] + [x] + (a + b + c)[|a|..] == (a + [x]) + b + c
  {
    assert (a + b + c)[..|a|] == a;
    assert (a + b + c)[|a|..] == b + c;
  }

  lemma InsertAfterSecond<T>(a: seq<T>, b: seq<T>, c: seq<T>, x: T)
    ensures (a + b + c)[..|a| + |b|] + [x] + (a + b + c)[|a| + |b|..] == a + (b + [x]) + c
  {
    assert (a + b + c)[..|a| + |b|] == a + b;
    assert (a + b + c)[|a| + |b|..] == c;
  }

  lemma InsertAfterThird<T>(a: seq<T>, b: seq<T>, c: seq<T>, x: T)
    ensures (a + b + c)[..|a + b + c|] + [x] + (a + b + c)[|a + b + c|..] == a + b + (c + [x])
  {
    assert (a + b + c)[..|a + b + c|] == a + b + c;
    assert (a + b + c)[|a + b + c|..] == [];
  }

  /** Shifting `done[j..i]` right by one and writing `x` at `j` leaves the array
      holding `done[..j] + [x] + done[j..]` in its first `i + 1` cells. */
  lemma ShiftedPrefix(a: seq<Warehouse>, done: seq<Warehouse>, x: Warehouse, i: nat, j: nat)
    requires j <= i == |done| < |a|
    requires forall k :: 0 <= k < j ==> a[k] == done[k]
    requires a[j] == x
    requires forall k :: j < k <= i ==> a[k] == done[k - 1]
    ensures a[..i + 1] == done[..j] + [x] + done[j..]
  {
  }

  /** One step of the insertion sort: moves `a[i]` left past every earlier element of
      strictly greater priority and reports where it landed. */
  method InsertOne(a: array<Warehouse>, i: nat) returns (j: nat)
    requires i < a.Length
    modifies a
    ensures j <= i
    ensures a[..i + 1] == old(a[..i])[..j] + [old(a[i])] + old(a[..i])[j..]
    ensures a[i + 1..] == old(a[i + 1..])
    ensures j == 0 || Priority(old(a[j - 1])) <= Priority(old(a[i]))
    ensures forall k :: j <= k < i ==> Priority(old(a[k])) > Priority(old(a[i]))
  {
    ghost var done := a[..i];
    ghost var rest := a[i + 1..];
    var x := a[i];
    j := i;
    while j > 0 && Priority(a[j - 1]) > Priority(x)
      invariant 0 <= j <= i
      invariant forall k :: 0 <= k < j ==> a[k] == done[k]
      invariant forall k :: j < k <= i ==> a[k] == done[k - 1]
      invariant a[i + 1..] == rest
      invariant forall k :: j <= k < i ==> Priority(done[k]) > Priority(x)
    {
      a[j] := a[j - 1];
      j := j - 1;
    }
    a[j] := x;
    ShiftedPrefix(a[..], done, x, i, j);
  }

  /** `sort.SliceStable` by priority on the copy, done as an insertion sort. */
  method SortByPriority(a: array<Warehouse>)
    modifies a
    ensures a[..] == StableByPriority(old(a[..]))
  {
    ghost var orig := a[..];
    var i := 0;
    while i < a.Length
      invariant 0 <= i <= a.Length
      invariant a[..i] == StableByPriority(orig[..i])
      invariant a[i..] == orig[i..]
    {
      var j := InsertOne(a, i);
      InsertionPoint(orig[..i], orig[i], j);
      assert orig[..i + 1] == orig[..i] + [orig[i]];
      assert a[i + 1..] == orig[i + 1..];
      i := i + 1;
    }
    assert a[..] == a[..a.Length];
    assert orig[..a.Length] == orig;
  }

  /** `k` is the position of the first warehouse of least priority in `s`. */
  predicate IsFirstMinimal(s: seq<Warehouse>, k: int)
  {
    && 0 <= k < |s|
    && (forall j :: 0 <= j < |s| ==> Priority(s[k]) <= Priority(s[j]))
    && (forall j :: 0 <= j < k ==> Priority(s[j]) > Priority(s[k]))
  }

  lemma {:induction false} NoneWithPriority(s: seq<Warehouse>, p: nat)
    requires forall j :: 0 <= j < |s| ==> Priority(s[j]) != p
    ensures WithPriority(s, p) == []
  {
    if s != [] {
      NoneWithPriority(s[..|s| - 1], p);
    }
  }

  lemma {:induction false} FirstWithPriority(s: seq<Warehouse>, p: nat, k: nat)
    requires k < |s| && Priority(s[k]) == p
    requires forall j :: 0 <= j < k ==> Priority(s[j]) != p
    ensures WithPriority(s, p) != [] && WithPriority(s, p)[0] == s[k]
  {
    var init := s[..|s| - 1];
    if k == |s| - 1 {
      NoneWithPriority(init, p);
    } else {
      FirstWithPriority(init, p, k);
    }
  }

  /** The first element of the stable order is the first warehouse of least priority. */
  lemma StableHead(s: seq<Warehouse>) returns (k: nat)
    requires s != []
    ensures IsFirstMinimal(s, k) && StableByPriority(s)[0] == s[k]
  {
    var f0, f1 := WithPriority(s, 0), WithPriority(s, 1);
    if exists j :: 0 <= j < |s| && Priority(s[j]) == 0 {
      k := FirstIndex(s, 0);
      FirstWithPriority(s, 0, k);
    } else if exists j :: 0 <= j < |s| && Priority(s[j]) == 1 {
      NoneWithPriority(s, 0);
      k := FirstIndex(s, 1);
      FirstWithPriority(s, 1, k);
    } else {
      NoneWithPriority(s, 0);
      NoneWithPriority(s, 1);
      k := 0;
      FirstWithPriority(s, 2, 0);
    }
  }

  lemma FirstIndex(s: seq<Warehouse>, p: nat) returns (k: nat)
    requires exists j :: 0 <= j < |s| && Priority(s[j]) == p
    ensures k < |s| && Priority(s[k]) == p
    ensures forall j :: 0 <= j < k ==> Priority(s[j]) != p
  {
    k := 0;
    while Priority(s[k]) != p
      invariant k < |s|
      invariant forall j :: 0 <= j < k ==> Priority(s[j]) != p
      decreases |s| - k
    {
      k := k + 1;
    }
  }

  /** A reference definition of the choice, independent of sorting: a left-to-right
      scan that keeps the first warehouse of least priority seen so far. */
  function FirstMinimal(s: seq<Warehouse>): (k: nat)
    requires s != []
    ensures IsFirstMinimal(s, k)
  {
    if |s| == 1 then 0
    else
      var k := FirstMinimal(s[..|s| - 1]);
      if Priority(s[|s| - 1]) < Priority(s[k]) then |s| - 1 else k
  }

  /** There is only one first warehouse of least priority. */
  lemma FirstMinimalUnique(s: seq<Warehouse>, k1: int, k2: int)
    requires IsFirstMinimal(s, k1) && IsFirstMinimal(s, k2)
    ensures k1 == k2
  {
    assert Priority(s[k1]) == Priority(s[k2]);
  }

  /** What discovery gives for a listing: the listing's error, the empty-list error,
      or the first warehouse of least priority. */
  function Best(l: Listing<Warehouse>): (r: Result<Warehouse>)
    ensures r.Ok? <==> !l.fails && l.items != []
    ensures r.Ok? ==> r.value in l.items
  {
    if l.fails then Err("error iterating warehouses")
    else if l.items == [] then Err("no SQL Warehouses found")
    else Ok(l.items[FirstMinimal(l.items)])
  }

  /** `DiscoverBestWarehouse` once the workspace client exists: list the warehouses,
      fail on a listing error or an empty list, otherwise stable-sort a copy by
      priority and take its first element. */
  method DiscoverBestWarehouse(l: Listing<Warehouse>) returns (r: Result<Warehouse>)
    ensures r == Best(l)
  {
    var all := ListWarehouses(l);
    if all.Err? {
      return Err(all.message);
    }
    var listed := all.value;
    if |listed| == 0 {
      return Err("no SQL Warehouses found");
    }
    var sorted := new Warehouse[|listed|](i requires 0 <= i < |listed| => listed[i]);
    assert sorted[..] == listed;
    SortByPriority(sorted);
    ghost var k := StableHead(listed);
    FirstMinimalUnique(listed, k, FirstMinimal(listed));
    return Ok(sorted[0]);
  }

  /** The first warehouse of least priority is the first running one if there is one,
      else the first starting one if there is one, else the first listed. */
  lemma PreferredWarehouse(s: seq<Warehouse>, k: int)
    requires IsFirstMinimal(s, k)
    ensures (exists j :: 0 <= j < |s| && s[j].state == Running) ==>
      s[k].state == Running && forall j :: 0 <= j < k ==> s[j].state != Running
    ensures (forall j :: 0 <= j < |s| ==> s[j].state != Running) && (exists j :: 0 <= j < |s| && s[j].state == Starting) ==>
      s[k].state == Starting && forall j :: 0 <= j < k ==> s[j].state != Starting
    ensures (forall j :: 0 <= j < |s| ==> s[j].state != Running && s[j].state != Starting) ==> k == 0
  {
    if exists j :: 0 <= j < |s| && s[j].state == Running {
      var j :| 0 <= j < |s| && s[j].state == Running;
      assert Priority(s[k]) <= Priority(s[j]) == 0;
    }
    if (forall j :: 0 <= j < |s| ==> s[j].state != Running) && (exists j :: 0 <= j < |s| && s[j].state == Starting) {
      var j :| 0 <= j < |s| && s[j].state == Starting;
      assert Priority(s[k]) <= Priority(s[j]) == 1;
    }
    if forall j :: 0 <= j < |s| ==> s[j].state != Running && s[j].state != Starting {
      assert Priority(s[0]) == 2 && Priority(s[k]) == 2;
    }
  }
}
