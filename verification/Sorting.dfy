/** Sizzle's document-order comparator, for browsers without `compareDocumentPosition`,
    and the duplicate removal that follows the sort. */
module Sorting {
  import opened Optional
  import opened Dom
  import opened Lists

  ghost predicate FollowsAmongSiblings(a: Path, b: Path) {
    AreSiblings(a, b) && a[|a| - 1] < b[|b| - 1]
  }

  ghost predicate Exists(t: Tree, n: Option<Path>) {
    n.Some? ==> Valid(t, n.value)
  }

  lemma LastIndexInRange(t: Tree, p: Path)
    requires p != [] && Valid(t, p)
    ensures Valid(t, p[..|p| - 1]) && p[|p| - 1] < ChildCount(t, p[..|p| - 1])
  {
    assert p == p[..|p| - 1] + [p[|p| - 1]];
    ValidAppend(t, p[..|p| - 1], p[|p| - 1]);
  }

  lemma SiblingsDiffer(a: Path, b: Path)
    requires a != b
    ensures AreSiblings(a, b) ==> a[|a| - 1] != b[|b| - 1]
  {
    if a != [] && b != [] {
      assert a == a[..|a| - 1] + [a[|a| - 1]] && b == b[..|b| - 1] + [b[|b| - 1]];
    }
  }

  /** `siblingCheck`: an absent node sorts first, otherwise walk forward from `a`. */
  method SiblingCheck(t: Tree, a: Option<Path>, b: Option<Path>) returns (r: int)
    requires Exists(t, a) && Exists(t, b)
    ensures r == -1 || r == 1
    ensures r == -1 <==> a.None? || (b.Some? && FollowsAmongSiblings(a.value, b.value))
  {
    if a.Some? && b.Some? {
      var target := b.value;
      var cur := a.value;
      var next := NextSibling(t, cur);
      while next.Some?
        invariant next == NextSibling(t, cur)
        invariant cur == a.value || (AreSiblings(a.value, cur) && a.value[|cur| - 1] < cur[|cur| - 1])
        invariant |cur| == |a.value|
        invariant FollowsAmongSiblings(a.value, target) ==> cur[|cur| - 1] < target[|cur| - 1]
        decreases if cur == [] then 0 else ChildCount(t, cur[..|cur| - 1]) - cur[|cur| - 1]
      {
        cur := next.value;
        if cur == target {
          return -1;
        }
        SiblingsDiffer(cur, target);
        next := NextSibling(t, cur);
      }
      if FollowsAmongSiblings(a.value, target) {
        LastIndexInRange(t, target);
        assert false;
      }
    }
    return if a.Some? then 1 else -1;
  }

  /** The ancestors of `p` from the document down to `p` itself. */
  function Lineage(p: Path): (r: seq<Path>)
    ensures |r| == |p| + 1
    ensures forall i | 0 <= i <= |p| :: r[i] == p[..i]
  {
    seq(|p| + 1, i requires 0 <= i <= |p| => p[..i])
  }

  /** The loop that unshifts each `parentNode`. */
  method AncestorList(p: Path) returns (up: seq<Path>)
    ensures up == Lineage(p)
  {
    up := [p];
    var at := p;
    var cur := ParentNode(at);
    while cur.Some?
      invariant |at| <= |p| && at == p[..|at|] && cur == ParentNode(at)
      invariant up == Lineage(p)[|at|..]
      decreases |at|
    {
      up := [cur.value] + up;
      at := cur.value;
      cur := ParentNode(at);
    }
  }

  /** Reading an array index: absent past the end. */
  function At(ps: seq<Path>, i: nat): Option<Path> {
    if i < |ps| then Some(ps[i]) else None
  }

  /** The comparator `sortOrder`, for two nodes of the document tree. */
  method SortOrder(t: Tree, a: Path, b: Path) returns (r: int)
    requires Valid(t, a) && Valid(t, b)
    ensures r < 0 <==> Before(a, b)
    ensures r == 0 <==> a == b
    ensures r > 0 <==> Before(b, a)
  {
    BeforeTotal(a, b);
    var aup, bup := ParentNode(a), ParentNode(b);
    if a == b {
      return 0;
    } else if aup.None? || bup.None? {
      return if a == [] then -1 else 1;
    } else if aup == bup {
      r := SiblingCheck(t, Some(a), Some(b));
      FirstDifferenceDecides(a, b, |a|);
      return;
    }
    var ap := AncestorList(a);
    var bp := AncestorList(b);
    var i := 0;
    assert a[..|a|] == a && b[..|b|] == b;
    while At(ap, i) == At(bp, i)
      invariant i <= |a| + 1 && i <= |b| + 1
      invariant forall k | 0 <= k < i :: a[..k] == b[..k]
      decreases |a| + 1 - i
    {
      i := i + 1;
    }
    FirstDifferenceDecides(a, b, i);
    LineageExists(t, a, i);
    LineageExists(t, b, i);
    r := SiblingCheck(t, At(ap, i), At(bp, i));
  }

  lemma LineageExists(t: Tree, p: Path, i: nat)
    requires Valid(t, p)
    ensures Exists(t, At(Lineage(p), i))
    decreases |p|
  {
    if p != [] {
      LastIndexInRange(t, p);
      if i < |p| {
        assert p[..i] == p[..|p| - 1][..i];
        LineageExists(t, p[..|p| - 1], i);
      }
    }
    assert p[..|p|] == p;
  }

  /** The first place where two lineages part decides the order of the two nodes. */
  lemma FirstDifferenceDecides(a: Path, b: Path, i: nat)
    requires 0 < i <= |a| + 1 && i <= |b| + 1 && a[..i - 1] == b[..i - 1]
    requires At(Lineage(a), i) != At(Lineage(b), i)
    ensures Before(a, b) <==>
      var x, y := At(Lineage(a), i), At(Lineage(b), i);
      x.None? || (y.Some? && FollowsAmongSiblings(x.value, y.value))
  {
    var p := a[..i - 1];
    assert a == p + a[i - 1..] && b == p + b[i - 1..];
    BeforeAtDifference(p, a[i - 1..], b[i - 1..]);
    if i <= |a| && i <= |b| {
      assert a[..i] == p + [a[i - 1]] && b[..i] == p + [b[i - 1]];
      assert a[..i][..i - 1] == p == b[..i][..i - 1];
    }
  }

  // ---- uniqueSort ----

  ghost predicate SortedByOrder(ps: seq<Path>) {
    forall i, j | 0 <= i < j < |ps| :: ps[i] == ps[j] || Before(ps[i], ps[j])
  }

  /** Positions `i` whose entry repeats the one before it. */
  ghost predicate Repeats(ps: seq<Path>, i: int) {
    0 < i < |ps| && ps[i - 1] == ps[i]
  }

  /** `found` lists, in order, the repeats among the first `upto + 1` positions. */
  ghost predicate ListsRepeats(ps: seq<Path>, upto: nat, found: seq<nat>) {
    && (forall k | 0 <= k < |found| :: Repeats(ps, found[k]) && found[k] <= upto)
    && (forall k, l | 0 <= k < l < |found| :: found[k] < found[l])
    && (forall i | Repeats(ps, i) && i <= upto :: i in found)
  }

  /** `now` is `sorted` with the repeats from `found[j]` on spliced out. */
  ghost predicate RemovedFrom(now: seq<Path>, sorted: seq<Path>, found: seq<nat>, j: nat)
    requires j <= |found|
  {
    var cut := if j == |found| then |sorted| else found[j];
    && cut <= |now| && cut <= |sorted| && now[..cut] == sorted[..cut]
    && (forall k | Repeats(now, k) :: k in found[..j])
  }

  function Without(ps: seq<Path>, i: nat): seq<Path>
    requires i < |ps|
  {
    ps[..i] + ps[i + 1..]
  }

  class NodeList {
    var items: seq<Path>

    constructor (items: seq<Path>)
      ensures this.items == items
    {
      this.items := items;
    }

    /** `splice(i, 1)` */
    method SpliceOne(i: nat)
      requires i < |items|
      modifies this
      ensures items == Without(old(items), i)
    {
      items := Without(items, i);
    }

    /** `uniqueSort`.  The engine's `sort` is represented by its outcome: `sorted` is a
        rearrangement in comparator order, and `hasDuplicate` is set unless all are different. */
    method UniqueSort(sorted: seq<Path>, hasDuplicate: bool)
      requires multiset(sorted) == multiset(items) && SortedByOrder(sorted)
      requires !hasDuplicate ==> Increasing(sorted)
      modifies this
      ensures Increasing(items)
      ensures forall p :: p in items <==> p in old(items)
    {
      SameMembers(items, sorted);
      items := sorted;
      if hasDuplicate {
        var duplicates := CollectRepeats();
        var j := |duplicates|;
        while j > 0
          invariant 0 <= j <= |duplicates|
          invariant ListsRepeats(sorted, |sorted|, duplicates)
          invariant SortedByOrder(items) && (forall p :: p in items <==> p in sorted)
          invariant RemovedFrom(items, sorted, duplicates, j)
        {
          j := j - 1;
          RemoveRepeat(items, sorted, duplicates, j);
          SpliceOne(duplicates[j]);
        }
        AdjacentDistinct(items);
      }
    }

    /** The loop that collects the index of every repeated entry. */
    method CollectRepeats() returns (duplicates: seq<nat>)
      ensures ListsRepeats(items, |items|, duplicates)
    {
      duplicates := [];
      var i := 0;
      while i < |items|
        invariant 0 <= i <= |items|
        invariant ListsRepeats(items, i, duplicates)
      {
        var elem := items[i];
        i := i + 1;
        if At(items, i) == Some(elem) {
          duplicates := duplicates + [i];
        }
      }
    }
  }

  lemma SameMembers(a: seq<Path>, b: seq<Path>)
    requires multiset(a) == multiset(b)
    ensures forall p :: p in a <==> p in b
  {
    assert forall p :: p in a <==> p in multiset(a);
    assert forall p :: p in b <==> p in multiset(b);
  }

  /** Splicing out one repeat, working backwards, keeps order, members and the smaller indices. */
  lemma RemoveRepeat(now: seq<Path>, sorted: seq<Path>, found: seq<nat>, j: nat)
    requires j < |found| && ListsRepeats(sorted, |sorted|, found)
    requires SortedByOrder(now) && RemovedFrom(now, sorted, found, j + 1)
    ensures found[j] < |now|
    ensures var rest := Without(now, found[j]);
      && SortedByOrder(rest) && RemovedFrom(rest, sorted, found, j)
      && (forall p :: p in rest <==> p in now)
  {
    var i := found[j];
    assert Repeats(sorted, i);
    var cut := if j + 1 == |found| then |sorted| else found[j + 1];
    assert i < cut && now[i] == now[..cut][i] == sorted[i] && now[i - 1] == now[..cut][i - 1] == sorted[i - 1];
    var rest := Without(now, i);
    forall p | p in now ensures p in rest {
      var k :| 0 <= k < |now| && now[k] == p;
      assert if k < i then rest[k] == p else if k == i then rest[i - 1] == p else rest[k - 1] == p;
    }
    forall k | Repeats(rest, k) ensures k in found[..j] {
      assert if k < i then Repeats(now, k) else Repeats(now, k + 1);
      var k' := if k < i then k else k + 1;
      var m :| 0 <= m <= j && found[m] == k';
    }
    assert rest[..i] == now[..i] == now[..cut][..i] == sorted[..cut][..i] == sorted[..i];
  }

  lemma AdjacentDistinct(ps: seq<Path>)
    requires SortedByOrder(ps) && forall k :: !Repeats(ps, k)
    ensures Increasing(ps)
  {
    forall i, j | 0 <= i < j < |ps| ensures Before(ps[i], ps[j]) {
      assert !Repeats(ps, j);
      BeforeTotal(ps[j - 1], ps[j]);
      BeforeTotal(ps[i], ps[j - 1]);
    }
  }

  /** A list in strict document order with the same members is determined: it is the
      depth-first walk of the tree restricted to those nodes. */
  lemma {:induction false} IncreasingIsUnique(a: seq<Path>, b: seq<Path>)
    requires Increasing(a) && Increasing(b) && forall p :: p in a <==> p in b
    ensures a == b
  {
    assert (a != [] ==> a[0] in b) && (b != [] ==> b[0] in a);
    if a != [] && b != [] {
      var x, y := a[0], b[0];
      assert x in b && y in a;
      BeforeTotal(x, y);
      assert forall p | p in a :: p == x || Before(x, p);
      assert forall p | p in b :: p == y || Before(y, p);
      assert x == y;
      forall p ensures p in a[1..] <==> p in b[1..] {
        BeforeTotal(x, p);
        assert p in a <==> p == x || p in a[1..];
        assert p in b <==> p == x || p in b[1..];
        assert p in a[1..] ==> Before(x, p);
        assert p in b[1..] ==> Before(x, p);
      }
      IncreasingIsUnique(a[1..], b[1..]);
      assert a == [x] + a[1..] && b == [x] + b[1..];
    }
  }

  lemma {:induction false} FilterIncreasing(ps: seq<Path>, keep: Path -> bool)
    requires Increasing(ps)
    ensures Increasing(Filter(ps, keep))
  {
    if ps != [] {
      FilterIncreasing(ps[1..], keep);
      var rest := Filter(ps[1..], keep);
      forall j | 0 <= j < |rest| ensures Before(ps[0], rest[j]) {
        FilterMembers(ps[1..], keep, rest[j]);
      }
    }
  }

  /** What `uniqueSort` leaves is the depth-first walk of the document, restricted to the
      nodes it was given. */
  lemma UniqueSortedIsTheWalk(t: Tree, ps: seq<Path>)
    requires Increasing(ps) && forall p | p in ps :: Valid(t, p)
    ensures ps == Filter(Preorder(t), p => p in ps)
  {
    var walk := Filter(Preorder(t), p => p in ps);
    PreorderIncreasing(t);
    FilterIncreasing(Preorder(t), p => p in ps);
    forall p ensures p in walk <==> p in ps {
      FilterMembers(Preorder(t), p => p in ps, p);
      PreorderMembers(t, p);
    }
    IncreasingIsUnique(ps, walk);
  }
}
