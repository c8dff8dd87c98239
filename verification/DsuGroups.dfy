/** The disjoint-set view: its gate lets through exactly the parent arrays whose chains all end
    in a root, and on those the grouping terminates and groups by root. */
module DsuGroups {
  import opened Basics

  /** A JSON value as far as the gate looks: an array whose items are integers or not, or no array. */
  datatype Item = Int(n: int) | NotInt
  datatype Value = Array(items: seq<Item>) | NoArray

  predicate ParentShape(v: Value) {
    v.Array? && v.items != [] && forall k :: 0 <= k < |v.items| ==> v.items[k].Int? && 0 <= v.items[k].n < |v.items|
  }

  predicate RankShape(v: Value, n: nat) {
    v.Array? && |v.items| == n && forall k :: 0 <= k < n ==> v.items[k].Int? && 0 <= v.items[k].n
  }

  function Ints(v: Value): (s: seq<nat>)
    requires v.Array? && forall k :: 0 <= k < |v.items| ==> v.items[k].Int? && 0 <= v.items[k].n
    ensures |s| == |v.items| && forall k :: 0 <= k < |s| ==> s[k] == v.items[k].n
  {
    seq(|v.items|, k requires 0 <= k < |v.items| => v.items[k].n)
  }

  // ---- chains ---------------------------------------------------------------------------------------

  predicate Parents(p: seq<nat>) { forall i :: 0 <= i < |p| ==> p[i] < |p| }

  /** The k-th ancestor of x. */
  function Up(p: seq<nat>, x: nat, k: nat): (y: nat)
    requires Parents(p) && x < |p|
    ensures y < |p|
  {
    if k == 0 then x else p[Up(p, x, k - 1)]
  }

  predicate RootAt(p: seq<nat>, x: nat, k: nat)
    requires Parents(p) && x < |p|
  {
    p[Up(p, x, k)] == Up(p, x, k)
  }

  /** The chain from x ends in a root, however long it is. */
  ghost predicate Ends(p: seq<nat>, x: nat)
    requires Parents(p) && x < |p|
  {
    exists k: nat :: RootAt(p, x, k)
  }

  lemma {:induction false} UpFromParent(p: seq<nat>, x: nat, k: nat)
    requires Parents(p) && x < |p|
    ensures Up(p, p[x], k) == Up(p, x, k + 1)
  {
    if k > 0 { UpFromParent(p, x, k - 1); }
  }

  lemma {:induction false} RootStays(p: seq<nat>, x: nat, k: nat, m: nat)
    requires Parents(p) && x < |p| && RootAt(p, x, k) && k <= m
    ensures Up(p, x, m) == Up(p, x, k) && RootAt(p, x, m)
    decreases m
  {
    if k < m { RootStays(p, x, k, m - 1); }
  }

  /** Meeting an ancestor again means going round. */
  lemma {:induction false} Periodic(p: seq<nat>, x: nat, i: nat, j: nat, m: nat)
    requires Parents(p) && x < |p| && Up(p, x, i) == Up(p, x, j)
    ensures Up(p, x, i + m) == Up(p, x, j + m)
  {
    if m > 0 {
      Periodic(p, x, i, j, m - 1);
      assert Up(p, x, i + m) == p[Up(p, x, i + m - 1)] && Up(p, x, j + m) == p[Up(p, x, j + m - 1)];
    }
  }

  function Below(n: nat): (s: set<nat>)
    ensures |s| == n && forall i :: i in s <==> 0 <= i < n
  {
    if n == 0 then {} else Below(n - 1) + {n - 1}
  }

  /** x and its ancestors before the m-th. */
  function Ancestors(p: seq<nat>, x: nat, m: nat): (s: set<nat>)
    requires Parents(p) && x < |p|
    ensures forall y :: y in s ==> y < |p|
  {
    if m == 0 then {} else Ancestors(p, x, m - 1) + {Up(p, x, m - 1)}
  }

  lemma {:induction false} AncestorsAre(p: seq<nat>, x: nat, m: nat, y: nat)
    requires Parents(p) && x < |p| && y in Ancestors(p, x, m)
    ensures exists k :: 0 <= k < m && Up(p, x, k) == y
  {
    if y == Up(p, x, m - 1) {
      assert 0 <= m - 1 < m;
    } else {
      AncestorsAre(p, x, m - 1, y);
    }
  }

  /** When they all differ they are m many. */
  lemma {:induction false} DistinctMany(p: seq<nat>, x: nat, m: nat)
    requires Parents(p) && x < |p| && forall i, j :: 0 <= i < j < m ==> Up(p, x, i) != Up(p, x, j)
    ensures |Ancestors(p, x, m)| == m
  {
    if m > 0 {
      DistinctMany(p, x, m - 1);
      if Up(p, x, m - 1) in Ancestors(p, x, m - 1) { AncestorsAre(p, x, m - 1, Up(p, x, m - 1)); }
    }
  }

  /** Among the first n + 1 ancestors one comes twice. */
  lemma {:induction false} Pigeonhole(p: seq<nat>, x: nat) returns (i: nat, j: nat)
    requires Parents(p) && x < |p|
    ensures i < j <= |p| && Up(p, x, i) == Up(p, x, j)
  {
    if k, l :| 0 <= k < l <= |p| && Up(p, x, k) == Up(p, x, l) {
      i, j := k, l;
    } else {
      DistinctMany(p, x, |p| + 1);
      SubsetSize(Ancestors(p, x, |p| + 1), Below(|p|));
      assert false;
    }
  }

  /** A chain that ends at all ends within n - 1 steps. */
  lemma {:induction false} EndsSoon(p: seq<nat>, x: nat)
    requires Parents(p) && x < |p| && Ends(p, x)
    ensures RootAt(p, x, |p| - 1)
  {
    var k: nat :| RootAt(p, x, k);
    var i, j := Pigeonhole(p, x);
    // go round until k: the repeated ancestor is a root, so the step after it is
    RootStays(p, x, k, k + i);
    PeriodicMany(p, x, i, j, k);
    RootStays(p, x, k, i + k * (j - i));
    assert RootAt(p, x, i);
    RootStays(p, x, i, |p| - 1);
  }

  lemma {:induction false} PeriodicMany(p: seq<nat>, x: nat, i: nat, j: nat, k: nat)
    requires Parents(p) && x < |p| && i < j && Up(p, x, i) == Up(p, x, j)
    ensures k <= i + k * (j - i) && Up(p, x, i + k * (j - i)) == Up(p, x, i)
  {
    if k > 0 {
      PeriodicMany(p, x, i, j, k - 1);
      var d := j - i;
      assert k * d == (k - 1) * d + d;
      Periodic(p, x, i, j, (k - 1) * d);
    }
  }

  // ---- the gate --------------------------------------------------------------------------------------

  predicate OnlyOwnChild(p: seq<nat>, i: nat)
    requires i < |p|
  {
    p[i] == i && forall j :: 0 <= j < |p| && p[j] == i ==> j == i
  }

  /** Parent and rank arrays of one size, every chain ending in a root, something merged, no rank
      above n, and rank 0 for a set of one. */
  ghost predicate IsForest(pv: Value, rv: Value) {
    && ParentShape(pv) && RankShape(rv, |pv.items|)
    && var p, r := Ints(pv), Ints(rv);
       && (forall i :: 0 <= i < |r| ==> r[i] <= |p|)
       && (forall i :: 0 <= i < |p| ==> Ends(p, i))
       && (exists i :: 0 <= i < |p| && p[i] != i)
       && (forall i :: 0 <= i < |p| && OnlyOwnChild(p, i) ==> r[i] == 0)
  }

  /** Follow one chain for at most n hops. */
  method EndsWithinHops(p: seq<nat>, i: nat) returns (ok: bool)
    requires Parents(p) && i < |p|
    ensures ok <==> Ends(p, i)
  {
    var n, cur, hops := |p|, p[i], 0;
    assert Up(p, i, 0) == i && Up(p, i, 1) == p[i];
    while hops < n
      invariant 0 <= hops < n && cur == Up(p, i, hops + 1)
      invariant hops > 0 ==> !RootAt(p, i, hops)
    {
      if p[cur] == cur {
        assert RootAt(p, i, hops + 1);
        break;
      }
      assert !RootAt(p, i, hops + 1);
      cur := p[cur];
      if hops == n - 1 {
        if Ends(p, i) { EndsSoon(p, i); }
        return false;
      }
      hops := hops + 1;
    }
    return p[cur] == cur;
  }

  /** How many indices below m have i as parent. */
  function Children(p: seq<nat>, i: nat, m: nat): nat
    requires m <= |p|
  {
    if m == 0 then 0 else Children(p, i, m - 1) + if p[m - 1] == i then 1 else 0
  }

  lemma {:induction false} NoChildren(p: seq<nat>, i: nat, m: nat)
    requires m <= |p|
    ensures Children(p, i, m) == 0 <==> forall j :: 0 <= j < m ==> p[j] != i
  {
    if m > 0 { NoChildren(p, i, m - 1); }
  }

  lemma {:induction false} OneChild(p: seq<nat>, i: nat, m: nat)
    requires i < m <= |p| && p[i] == i
    ensures Children(p, i, m) == 1 <==> forall j :: 0 <= j < m && p[j] == i ==> j == i
  {
    NoChildren(p, i, m - 1);
    if i < m - 1 {
      OneChild(p, i, m - 1);
      assert Children(p, i, m - 1) != 0;
    }
  }

  method ChildCounts(p: seq<nat>) returns (counts: array<nat>)
    requires Parents(p)
    ensures fresh(counts) && counts.Length == |p| && forall i :: 0 <= i < |p| ==> counts[i] == Children(p, i, |p|)
  {
    counts := new nat[|p|](_ => 0);
    for m := 0 to |p|
      invariant forall i :: 0 <= i < |p| ==> counts[i] == Children(p, i, m)
    {
      counts[p[m]] := counts[p[m]] + 1;
    }
  }

  /** The gate decides exactly whether the value is a forest with ranks. */
  method IsDsuLike(pv: Value, rv: Value) returns (ok: bool)
    ensures ok <==> IsForest(pv, rv)
  {
    if !ParentShape(pv) { return false; }
    var n := |pv.items|;
    if !RankShape(rv, n) { return false; }
    var p, r := Ints(pv), Ints(rv);
    if exists i :: 0 <= i < n && r[i] > n { return false; }
    for i := 0 to n
      invariant forall j :: 0 <= j < i ==> Ends(p, j)
    {
      var ends := EndsWithinHops(p, i);
      if !ends { return false; }
    }
    if forall i :: 0 <= i < n ==> p[i] == i { return false; }
    var childCount := ChildCounts(p);
    for i := 0 to n
      invariant forall j :: 0 <= j < i && OnlyOwnChild(p, j) ==> r[j] == 0
      invariant forall j :: 0 <= j < n ==> childCount[j] == Children(p, j, n)
    {
      if p[i] == i { OneChild(p, i, n); }
      if p[i] == i && childCount[i] == 1 && r[i] != 0 { return false; }
    }
    return true;
  }

  // ---- grouping ---------------------------------------------------------------------------------------

  /** Steps to the root. */
  ghost function Distance(p: seq<nat>, x: nat): (d: nat)
    requires Parents(p) && x < |p| && Ends(p, x)
    ensures RootAt(p, x, d) && forall k :: 0 <= k < d ==> !RootAt(p, x, k)
  {
    EndsSoon(p, x);
    Least(p, x, 0)
  }

  ghost function Least(p: seq<nat>, x: nat, k: nat): (d: nat)
    requires Parents(p) && x < |p| && k <= |p| - 1 && RootAt(p, x, |p| - 1)
    ensures k <= d && RootAt(p, x, d) && forall j :: k <= j < d ==> !RootAt(p, x, j)
    decreases |p| - k
  {
    if RootAt(p, x, k) then k else Least(p, x, k + 1)
  }

  lemma {:induction false} ParentNearer(p: seq<nat>, x: nat)
    requires Parents(p) && x < |p| && Ends(p, x) && p[x] != x
    ensures Ends(p, p[x]) && Distance(p, p[x]) < Distance(p, x)
  {
    var d := Distance(p, x);
    assert Up(p, x, 0) == x && d > 0;
    UpFromParent(p, x, d - 1);
    assert RootAt(p, p[x], d - 1);
  }

  ghost function RootOf(p: seq<nat>, x: nat): (root: nat)
    requires Parents(p) && x < |p| && Ends(p, x)
    ensures root < |p| && p[root] == root
  {
    Up(p, x, Distance(p, x))
  }

  lemma {:induction false} ParentSameRoot(p: seq<nat>, x: nat)
    requires Parents(p) && x < |p| && Ends(p, x)
    ensures Ends(p, p[x]) && RootOf(p, p[x]) == RootOf(p, x)
  {
    if p[x] != x {
      ParentNearer(p, x);
      var d, e := Distance(p, x), Distance(p, p[x]);
      UpFromParent(p, x, e);
      RootStays(p, x, e + 1, d);
    }
  }

  /** Follows parents to the root; it stops because every step is nearer. */
  method Find(p: seq<nat>, x: nat) returns (root: nat)
    requires Parents(p) && x < |p| && Ends(p, x)
    ensures root == RootOf(p, x)
  {
    root := x;
    while p[root] != root
      invariant root < |p| && Ends(p, root) && RootOf(p, root) == RootOf(p, x)
      decreases Distance(p, root)
    {
      ParentNearer(p, root);
      ParentSameRoot(p, root);
      root := p[root];
    }
    assert Up(p, root, 0) == root && RootAt(p, root, 0);
  }

  ghost predicate AllEnd(p: seq<nat>) { Parents(p) && forall i :: 0 <= i < |p| ==> Ends(p, i) }

  /** The members of a group are the indices below m with its root, ascending. */
  ghost predicate IsGroup(p: seq<nat>, group: seq<nat>, root: nat, m: nat)
    requires AllEnd(p) && m <= |p|
  {
    && (forall a, b :: 0 <= a < b < |group| ==> group[a] < group[b])
    && forall i :: i in group <==> 0 <= i < m && RootOf(p, i) == root
  }

  /** Groups of the indices below m, by root, in order of first members. */
  ghost predicate IsGrouping(p: seq<nat>, groups: seq<seq<nat>>, order: seq<nat>, m: nat)
    requires AllEnd(p) && m <= |p|
  {
    && |groups| == |order|
    && (forall g :: 0 <= g < |groups| ==> groups[g] != [] && IsGroup(p, groups[g], order[g], m))
    && (forall g, h :: 0 <= g < h < |groups| ==> order[g] != order[h] && groups[g][0] < groups[h][0])
    && forall i :: 0 <= i < m ==> RootOf(p, i) in order
  }

  function BucketsOf(order: seq<nat>, buckets: map<nat, seq<nat>>): seq<seq<nat>>
    requires forall r :: r in order ==> r in buckets
  {
    seq(|order|, g requires 0 <= g < |order| => buckets[order[g]])
  }

  lemma {:induction false} GroupGrows(p: seq<nat>, group: seq<nat>, root: nat, m: nat)
    requires AllEnd(p) && m < |p| && IsGroup(p, group, root, m)
    ensures RootOf(p, m) != root ==> IsGroup(p, group, root, m + 1)
    ensures RootOf(p, m) == root ==> IsGroup(p, group + [m], root, m + 1)
  {
    assert forall i :: i in group + [m] <==> i in group || i == m;
    forall a | 0 <= a < |group| ensures group[a] < m { assert group[a] in group; }
  }

  function IndexOf(order: seq<nat>, root: nat): (g: nat)
    requires root in order
    ensures g < |order| && order[g] == root
  {
    if order[0] == root then 0 else 1 + IndexOf(order[1..], root)
  }

  /** Index m goes into the group of its root, or into a new one. */
  function Placed(groups: seq<seq<nat>>, order: seq<nat>, root: nat, m: nat): seq<seq<nat>>
    requires |groups| == |order|
  {
    if root in order then
      var g := IndexOf(order, root);
      groups[g := groups[g] + [m]]
    else groups + [[m]]
  }

  lemma {:induction false} NewGroup(p: seq<nat>, groups: seq<seq<nat>>, order: seq<nat>, m: nat)
    requires AllEnd(p) && m < |p| && IsGrouping(p, groups, order, m) && RootOf(p, m) !in order
    ensures IsGroup(p, [m], RootOf(p, m), m + 1)
  {
    forall i | 0 <= i < m ensures RootOf(p, i) != RootOf(p, m) { assert RootOf(p, i) in order; }
  }

  lemma {:induction false} FirstBelow(p: seq<nat>, group: seq<nat>, root: nat, m: nat)
    requires AllEnd(p) && m <= |p| && IsGroup(p, group, root, m) && group != []
    ensures group[0] < m
  {
    assert group[0] in group;
  }

  lemma {:induction false} JoinedGrouping(p: seq<nat>, groups: seq<seq<nat>>, order: seq<nat>, m: nat)
    requires AllEnd(p) && m < |p| && IsGrouping(p, groups, order, m) && RootOf(p, m) in order
    ensures IsGrouping(p, Placed(groups, order, RootOf(p, m), m), order, m + 1)
  {
    var root := RootOf(p, m);
    var groups' := Placed(groups, order, root, m);
    hide RootOf, IsGroup, IndexOf, AllEnd;
    forall g | 0 <= g < |groups| ensures groups'[g] != [] && IsGroup(p, groups'[g], order[g], m + 1) && groups'[g][0] == groups[g][0] {
      GroupGrows(p, groups[g], order[g], m);
    }
  }

  lemma {:induction false} OpenedGrouping(p: seq<nat>, groups: seq<seq<nat>>, order: seq<nat>, m: nat)
    requires AllEnd(p) && m < |p| && IsGrouping(p, groups, order, m) && RootOf(p, m) !in order
    ensures IsGrouping(p, groups + [[m]], order + [RootOf(p, m)], m + 1)
  {
    var root := RootOf(p, m);
    NewGroup(p, groups, order, m);
    hide RootOf, IsGroup, AllEnd;
    forall g | 0 <= g < |groups| ensures IsGroup(p, groups[g], order[g], m + 1) && groups[g][0] < m {
      GroupGrows(p, groups[g], order[g], m);
      FirstBelow(p, groups[g], order[g], m);
    }
    forall i | 0 <= i < m ensures RootOf(p, i) in order + [root] { assert RootOf(p, i) in order; }
  }

  lemma {:induction false} BucketsPlaced(order: seq<nat>, buckets: map<nat, seq<nat>>, root: nat, m: nat)
    requires forall r :: r in order <==> r in buckets
    requires forall g, h :: 0 <= g < h < |order| ==> order[g] != order[h]
    ensures var groups := Placed(BucketsOf(order, buckets), order, root, m);
            if root in order then BucketsOf(order, buckets[root := buckets[root] + [m]]) == groups
            else BucketsOf(order + [root], buckets[root := [m]]) == groups
  {}

  method Insert(order: seq<nat>, buckets: map<nat, seq<nat>>, r: nat, m: nat)
    returns (order': seq<nat>, buckets': map<nat, seq<nat>>)
    requires forall r :: r in order <==> r in buckets
    ensures forall r :: r in order' <==> r in buckets'
    ensures if r in order then order' == order && buckets' == buckets[r := buckets[r] + [m]]
            else order' == order + [r] && buckets' == buckets[r := [m]]
  {
    order', buckets' := order, buckets;
    if r !in buckets' {
      buckets' := buckets'[r := []];
      order' := order' + [r];
    }
    assert [] + [m] == [m];
    buckets' := buckets'[r := buckets'[r] + [m]];
  }

  lemma {:induction false} BucketsGrow(p: seq<nat>, order: seq<nat>, buckets: map<nat, seq<nat>>, m: nat)
    requires AllEnd(p) && m < |p| && (forall r :: r in order <==> r in buckets)
    requires IsGrouping(p, BucketsOf(order, buckets), order, m)
    ensures var r := RootOf(p, m);
            if r in order then IsGrouping(p, BucketsOf(order, buckets[r := buckets[r] + [m]]), order, m + 1)
            else IsGrouping(p, BucketsOf(order + [r], buckets[r := [m]]), order + [r], m + 1)
  {
    var r := RootOf(p, m);
    BucketsPlaced(order, buckets, r, m);
    hide IsGrouping, RootOf, BucketsOf;
    if r in order { JoinedGrouping(p, BucketsOf(order, buckets), order, m); }
    else { OpenedGrouping(p, BucketsOf(order, buckets), order, m); }
  }

  method GroupsOf(p: seq<nat>) returns (groups: seq<seq<nat>>, ghost order: seq<nat>)
    requires AllEnd(p)
    ensures IsGrouping(p, groups, order, |p|)
  {
    var roots: seq<nat> := [];
    var buckets: map<nat, seq<nat>> := map[];
    NoGroups(p);
    assert BucketsOf(roots, buckets) == [];
    hide IsGrouping, RootOf, BucketsOf;
    for m := 0 to |p|
      invariant forall r :: r in roots <==> r in buckets
      invariant IsGrouping(p, BucketsOf(roots, buckets), roots, m)
    {
      var r := Find(p, m);
      BucketsGrow(p, roots, buckets, m);
      roots, buckets := Insert(roots, buckets, r, m);
    }
    groups := BucketsOf(roots, buckets);
    order := roots;
  }

  lemma {:induction false} NoGroups(p: seq<nat>)
    requires AllEnd(p)
    ensures IsGrouping(p, [], [], 0)
  {}

  /** Every index is in exactly one group, and two share one exactly when their chains end alike. */
  lemma {:induction false} GroupsPartition(p: seq<nat>, groups: seq<seq<nat>>, order: seq<nat>, i: nat, j: nat)
    requires AllEnd(p) && IsGrouping(p, groups, order, |p|) && i < |p| && j < |p|
    ensures exists g :: 0 <= g < |groups| && i in groups[g]
    ensures forall g, h :: 0 <= g < |groups| && 0 <= h < |groups| && i in groups[g] && i in groups[h] ==> g == h
    ensures (exists g :: 0 <= g < |groups| && i in groups[g] && j in groups[g]) <==> RootOf(p, i) == RootOf(p, j)
  {
    var g :| 0 <= g < |order| && order[g] == RootOf(p, i);
    assert IsGroup(p, groups[g], order[g], |p|);
  }

  /** What the gate lets through can be grouped. */
  lemma {:induction false} GateIsEnough(pv: Value, rv: Value)
    requires IsForest(pv, rv)
    ensures ParentShape(pv) && AllEnd(Ints(pv))
  {}

  /** Shape alone is not enough for the grouping: on a cycle the chain has no root at any length. */
  lemma {:induction false} CycleNeverEnds()
    ensures ParentShape(Array([Int(1), Int(0)])) && Ints(Array([Int(1), Int(0)])) == [1, 0] && !Ends([1, 0], 0)
  {
    var p: seq<nat> := [1, 0];
    forall k: nat ensures !RootAt(p, 0, k) { assert Up(p, 0, k) == 0 || Up(p, 0, k) == 1; }
  }
}
