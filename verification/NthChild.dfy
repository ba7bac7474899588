/** `Expr.filter.CHILD`: the position tests, with the resumable scan that remembers on the
    parent where it stopped, and the positions remembered on the elements themselves. */
module NthChild {
  import opened Numbers
  import opened Optional
  import opened Dom

  datatype ChildType = Only | First | Last | Nth | NthLast {
    predicate Simple() { Only? || First? || Last? }
    predicate Forward() { !Last? && !NthLast? }
  }

  function ChildAt(parent: Path, i: nat): Path {
    parent + [i]
  }

  /** How many of the children `lo..hi` of `parent` are counted. */
  function Count(counts: Path -> bool, parent: Path, lo: nat, hi: nat): nat
    decreases hi
  {
    if hi <= lo then 0
    else Count(counts, parent, lo, hi - 1) + (if counts(ChildAt(parent, hi - 1)) then 1 else 0)
  }

  lemma {:induction false} CountSplit(counts: Path -> bool, parent: Path, lo: nat, mid: nat, hi: nat)
    requires lo <= mid <= hi
    ensures Count(counts, parent, lo, hi) == Count(counts, parent, lo, mid) + Count(counts, parent, mid, hi)
    decreases hi
  {
    if mid < hi {
      CountSplit(counts, parent, lo, mid, hi - 1);
    }
  }

  /** The siblings a test counts: elements, or for `of-type` the nodes of the same name. */
  function Counted(t: Tree, names: Path -> string, ofType: bool, elem: Path): Path -> bool {
    if ofType then n => names(n) == names(elem) else ElementsOf(t)
  }

  function ElementsOf(t: Tree): Path -> bool {
    n => IsElement(t, n)
  }

  /** The 1-based position of a child, from the first or from the last child. */
  function Position(t: Tree, counts: Path -> bool, forward: bool, elem: Path): nat
    requires elem != []
  {
    var parent, i := elem[..|elem| - 1], elem[|elem| - 1];
    if forward then Count(counts, parent, 0, i + 1) else Count(counts, parent, i, ChildCount(t, parent))
  }

  /** The siblings up to the child `i` that a test counts: elements, or nodes with its name. */
  function CountedUpTo(t: Tree, names: Path -> string, ofType: bool, forward: bool, parent: Path, i: nat): set<nat> {
    set k: nat | k < ChildCount(t, parent) && (if forward then k <= i else k >= i)
                 && (if ofType then names(parent + [k]) == names(parent + [i]) else IsElement(t, parent + [k]))
  }

  /** A position is the number of siblings counted up to the child, itself included. */
  lemma PositionCounts(t: Tree, names: Path -> string, ofType: bool, forward: bool, parent: Path, i: nat)
    requires i < ChildCount(t, parent)
    ensures Position(t, Counted(t, names, ofType, parent + [i]), forward, parent + [i])
         == |CountedUpTo(t, names, ofType, forward, parent, i)|
  {
    var elem := parent + [i];
    var counts := Counted(t, names, ofType, elem);
    var lo, hi := if forward then 0 else i, if forward then i + 1 else ChildCount(t, parent);
    assert elem[..|elem| - 1] == parent && elem[|elem| - 1] == i;
    CountIsSize(counts, parent, lo, hi);
    var upTo := set k: nat | lo <= k < hi && counts(ChildAt(parent, k));
    forall k: nat ensures k in upTo <==> k in CountedUpTo(t, names, ofType, forward, parent, i) {
      CountedIs(t, names, ofType, elem, ChildAt(parent, k));
    }
    assert upTo == CountedUpTo(t, names, ofType, forward, parent, i);
  }

  lemma {:induction false} CountIsSize(counts: Path -> bool, parent: Path, lo: nat, hi: nat)
    ensures Count(counts, parent, lo, hi) == |set k: nat | lo <= k < hi && counts(ChildAt(parent, k))|
    decreases hi
  {
    if lo < hi {
      CountIsSize(counts, parent, lo, hi - 1);
      var before := set k: nat | lo <= k < hi - 1 && counts(ChildAt(parent, k));
      assert (set k: nat | lo <= k < hi && counts(ChildAt(parent, k)))
          == before + (if counts(ChildAt(parent, hi - 1)) then {hi - 1} else {});
    } else {
      assert (set k: nat | lo <= k < hi && counts(ChildAt(parent, k))) == {};
    }
  }

  // ---- The cycle test ----

  /** `diff === first || ( diff % first === 0 && diff / first >= 0 )`; a zero `first` makes
      the remainder NaN. */
  predicate InCycle(diff: int, first: int) {
    diff == first ||
    (first != 0 && Remainder(diff, first) == 0 && (diff == 0 || (diff > 0 <==> first > 0)))
  }

  lemma NoRemainder(diff: int, first: int) returns (k: int)
    requires first != 0 && Remainder(diff, first) == 0
    ensures diff == first * k
  {
    var m := if first < 0 then -first else first;
    var d := if diff < 0 then -diff else diff;
    assert d == m * (d / m) + d % m;
    k := if (diff < 0) == (first < 0) then d / m else -(d / m);
    if first < 0 {
      assert first * k == m * -k;
    }
  }

  lemma SmallMultipleIsZero(m: int, k: int, r: int)
    requires m > 0 && m * k == r && 0 <= r < m
    ensures r == 0
  {
    assert m * k == m * (k - 1) + m;
    assert k > 0 ==> m * (k - 1) >= 0;
  }

  lemma MultipleLeavesNothing(m: int, j: int)
    requires m > 0 && m * j >= 0
    ensures (m * j) % m == 0
  {
    var d := m * j;
    assert d == m * (d / m) + d % m;
    assert m * (j - d / m) == d - m * (d / m);
    SmallMultipleIsZero(m, j - d / m, d % m);
  }

  lemma RemainderOfMultiple(first: int, k: int)
    requires first != 0
    ensures Remainder(first * k, first) == 0
  {
    var m := if first < 0 then -first else first;
    var diff := first * k;
    var j := if (diff < 0) == (first < 0) then k else -k;
    assert m * j == if diff < 0 then -diff else diff;
    MultipleLeavesNothing(m, j);
  }

  /** The final test is the definition of `an + b`: some natural number of cycles after the
      offset, for every sign of `a` and for `a` zero. */
  lemma CycleIsNthExpression(position: int, a: int, b: int)
    ensures InCycle(position - b, a) <==> exists n: nat :: position == a * n + b
  {
    var diff := position - b;
    if a != 0 {
      if InCycle(diff, a) {
        if diff == a {
          assert position == a * 1 + b;
        } else {
          var k := NoRemainder(diff, a);
          SignOfQuotient(diff, a, k);
          assert position == a * k + b;
        }
      }
      if n: nat :| position == a * n + b {
        assert diff == a * n;
        RemainderOfMultiple(a, n);
        SignOfQuotient(diff, a, n);
      }
    } else {
      assert a * 0 == 0;
      if InCycle(diff, a) {
        var n: nat := 0;
        assert position == a * n + b;
      }
    }
  }

  lemma SignOfQuotient(d: int, a: int, k: int)
    requires a != 0 && d == a * k
    ensures k >= 0 <==> d == 0 || (d > 0 <==> a > 0)
  {
    if k < 0 {
      if a > 0 { assert a * k < 0; } else { assert a * k > 0; }
    } else if k > 0 {
      if a > 0 { assert a * k > 0; } else { assert a * k < 0; }
    }
  }

  // ---- The filter ----

  /** `parent[expando]["nth"]` */
  datatype ParentCell = ParentCell(run: nat, nodeIndex: nat, diff: nat)

  /** `elem[expando]["nth-last"]` */
  datatype ElementCell = ElementCell(run: nat, diff: nat)

  class ChildFilter {
    var dirruns: nat
    var onParent: map<Path, ParentCell>
    var onElement: map<Path, ElementCell>

    constructor ()
      ensures dirruns == 0 && onParent == map[] && onElement == map[]
    {
      dirruns, onParent, onElement := 0, map[], map[];
    }

    /** What is cached for the current run is true of the document as it stands. */
    ghost predicate Valid(t: Tree)
      reads this
    {
      var counts := ElementsOf(t);
      && (forall p | p in onParent ::
            && onParent[p].run <= dirruns
            && (onParent[p].run == dirruns ==>
                  onParent[p].nodeIndex < ChildCount(t, p) &&
                  onParent[p].diff == Count(counts, p, 0, onParent[p].nodeIndex + 1)))
      && (forall e | e in onElement ::
            && onElement[e].run <= dirruns && e != []
            && (onElement[e].run == dirruns ==> onElement[e].diff == Position(t, counts, false, e)))
    }

    /** A new run: the document may have changed in between. */
    method NewRun(before: Tree, now: Tree)
      requires Valid(before)
      modifies this`dirruns
      ensures Valid(now) && dirruns == old(dirruns) + 1
    {
      dirruns := dirruns + 1;
    }

    method RememberOnParent(t: Tree, parent: Path, nodeIndex: nat, diff: nat)
      requires Valid(t) && nodeIndex < ChildCount(t, parent)
      requires diff == Count(ElementsOf(t), parent, 0, nodeIndex + 1)
      modifies this`onParent
      ensures Valid(t)
    {
      onParent := onParent[parent := ParentCell(dirruns, nodeIndex, diff)];
    }

    method RememberElement(t: Tree, elem: Path, diff: nat)
      requires Valid(t) && elem != [] && diff == Position(t, ElementsOf(t), false, elem)
      modifies this`onElement
      ensures Valid(t)
    {
      onElement := onElement[elem := ElementCell(dirruns, diff)];
    }

    /** `:nth-child` resumes on the parent after the last element asked for. */
    method SeekForward(t: Tree, elem: Path) returns (diff: nat)
      requires Valid(t) && elem != [] && IsElement(t, elem)
      modifies this`onParent
      ensures diff == Position(t, ElementsOf(t), true, elem)
      ensures Valid(t)
    {
      var parent := elem[..|elem| - 1];
      ElementIsChild(t, elem);
      var hit := parent in onParent && onParent[parent].run == dirruns;
      var nodeIndex: nat := if hit then onParent[parent].nodeIndex else 0;
      diff := if hit then onParent[parent].diff else 0;
      nodeIndex, diff := Seek(t, elem, nodeIndex, diff);
      RememberOnParent(t, parent, nodeIndex, diff);
    }

    /** The loop from a remembered child, which wraps around to the first child once. */
    static method Seek(t: Tree, elem: Path, fromIndex: nat, fromDiff: nat) returns (nodeIndex: nat, diff: nat)
      requires elem != [] && IsElement(t, elem)
      requires fromIndex < ChildCount(t, elem[..|elem| - 1])
      requires fromIndex != 0 ==> fromDiff == Count(ElementsOf(t), elem[..|elem| - 1], 0, fromIndex + 1)
      ensures nodeIndex == elem[|elem| - 1]
      ensures diff == Count(ElementsOf(t), elem[..|elem| - 1], 0, nodeIndex + 1)
    {
      ghost var counts, target := ElementsOf(t), elem[|elem| - 1];
      var parent := elem[..|elem| - 1];
      ElementIsChild(t, elem);
      nodeIndex, diff := fromIndex, fromDiff;
      var start := Some(ChildAt(parent, 0));
      var node := if nodeIndex != 0 then Some(ChildAt(parent, nodeIndex)) else None;
      while true
        invariant node.Some? ==> node == ChildOrNone(t, parent, nodeIndex)
        invariant node.Some? ==> diff == Passed(t, counts, parent, true, nodeIndex + 1)
        invariant start.None? ==> node.Some? && nodeIndex < target
        invariant start.Some? ==> start == ChildOrNone(t, parent, 0)
        decreases start.Some?, if node.Some? then ChildCount(t, parent) - nodeIndex else ChildCount(t, parent)
      {
        if node.Some? {
          SiblingLinks(t, parent, nodeIndex);
        }
        nodeIndex := nodeIndex + 1;
        node := if node.Some? then NextSibling(t, node.value) else None;
        if node.None? {
          diff, nodeIndex := 0, 0;
          node, start := start, None;
        }
        assert node.Some?;
        PassedNext(t, counts, parent, true, nodeIndex);
        SameChild(elem, nodeIndex);
        if IsElement(t, node.value) {
          diff := diff + 1;
          if node.value == elem {
            return;
          }
        }
      }
    }

    /** The scan without a cache on the parent.  With `useCache` it remembers the position of
        every element it passes. */
    method Scan(t: Tree, names: Path -> string, ofType: bool, forward: bool, useCache: bool, elem: Path)
      returns (diff: nat)
      requires Valid(t) && elem != [] && IsElement(t, elem)
      requires useCache ==> !forward && !ofType
      modifies this`onElement
      ensures diff == Position(t, Counted(t, names, ofType, elem), forward, elem)
      ensures Valid(t)
    {
      hide Valid, Count, Counted, Passed, Position, IsElement, ChildCount, NextSibling, PreviousSibling;
      ghost var counts := Counted(t, names, ofType, elem);
      var parent := elem[..|elem| - 1];
      ElementIsChild(t, elem);
      var node := Some(ChildAt(parent, if forward then 0 else ChildCount(t, parent) - 1));
      diff := 0;
      ghost var at := if forward then 0 else ChildCount(t, parent) - 1;
      PassedAtEnds(t, counts, parent, forward, elem);
      while node.Some?
        invariant node == ChildOrNone(t, parent, at)
        invariant if forward then 0 <= at <= elem[|elem| - 1] else elem[|elem| - 1] <= at < ChildCount(t, parent)
        invariant diff == Passed(t, counts, parent, forward, at)
        invariant Valid(t)
        decreases if forward then ChildCount(t, parent) - at else at + 1
      {
        PassedNext(t, counts, parent, forward, at);
        CountedIs(t, names, ofType, elem, node.value);
        SameChild(elem, at);
        if (if ofType then names(node.value) == names(elem) else IsElement(t, node.value)) {
          diff := diff + 1;
          if useCache {
            PositionOfPassed(t, names, elem, parent, at);
            RememberElement(t, node.value, diff);
          }
          if node.value == elem {
            return;
          }
        }
        SiblingLinks(t, parent, at);
        node := if forward then NextSibling(t, node.value) else PreviousSibling(node.value);
        at := if forward then at + 1 else at - 1;
      }
    }

    /** The closure that `filter.CHILD` returns; `a` and `b` are its `first` and `last`. */
    method Matches(t: Tree, names: Path -> string, kind: ChildType, ofType: bool, a: int, b: int, xml: bool, elem: Path)
      returns (r: bool)
      requires Valid(t) && IsElement(t, elem)
      modifies this`onParent, this`onElement
      ensures Valid(t)
      ensures r <==> elem != [] && Stands(t, Counted(t, names, ofType, elem), kind, a, b, elem)
    {
      if elem == [] {
        return false;
      }
      ElementIsChild(t, elem);
      ghost var counts := Counted(t, names, ofType, elem);
      if kind.Simple() {
        r := IsOnly(t, names, ofType, kind, elem);
        return;
      }
      CycleIsNthExpression(Position(t, counts, kind.Forward(), elem), a, b);
      if a == 1 && b == 0 {
        // shortcut for :nth-*(n)
        assert Position(t, counts, kind.Forward(), elem) == 1 * Position(t, counts, kind.Forward(), elem) + 0;
        return true;
      }
      var useCache := !xml && !ofType;
      var diff: int;
      if kind.Forward() && useCache {
        diff := SeekForward(t, elem);
      } else if useCache && elem in onElement && onElement[elem].run == dirruns {
        diff := onElement[elem].diff;
      } else {
        diff := Scan(t, names, ofType, kind.Forward(), useCache, elem);
      }
      diff := diff - b;
      r := InCycle(diff, a);
    }

    /** `:first-*`, `:last-*` and `:only-*`: no counted sibling on the side or sides looked at. */
    method IsOnly(t: Tree, names: Path -> string, ofType: bool, kind: ChildType, elem: Path) returns (r: bool)
      requires kind.Simple() && elem != [] && IsElement(t, elem)
      ensures r <==> Stands(t, Counted(t, names, ofType, elem), kind, 0, 0, elem)
    {
      ElementIsChild(t, elem);
      ghost var counts := Counted(t, names, ofType, elem);
      var back := kind != Last;
      var again := kind == Only;
      var clear := NoneCounted(t, names, ofType, back, elem);
      if !clear {
        return false;
      }
      if again {
        clear := NoneCounted(t, names, ofType, false, elem);
      }
      return clear;
    }

    /** Walk away from `elem` looking for another counted sibling. */
    method NoneCounted(t: Tree, names: Path -> string, ofType: bool, back: bool, elem: Path) returns (r: bool)
      requires elem != [] && IsElement(t, elem)
      ensures r <==> Position(t, Counted(t, names, ofType, elem), back, elem) == 1
    {
      hide Count, ChildCount, IsElement, NextSibling, PreviousSibling;
      ElementIsChild(t, elem);
      ghost var counts := Counted(t, names, ofType, elem);
      ghost var parent, i := elem[..|elem| - 1], elem[|elem| - 1];
      ghost var at: int := i;
      var node := Some(elem);
      NothingBetween(counts, parent, 0);
      NothingBetween(counts, parent, ChildCount(t, parent));
      PassedNext(t, counts, parent, !back, i);
      PassedNext(t, counts, parent, back, i);
      while true
        invariant 0 <= at < ChildCount(t, parent) && node == ChildOrNone(t, parent, at)
        invariant if back then at <= i else i <= at
        invariant Passed(t, counts, parent, back, at) + 1 == Position(t, counts, back, elem)
        decreases if back then at else ChildCount(t, parent) - at
      {
        SiblingLinks(t, parent, at);
        node := if back then PreviousSibling(node.value) else NextSibling(t, node.value);
        at := if back then at - 1 else at + 1;
        if node.None? {
          return true;
        }
        PassedNext(t, counts, parent, back, at);
        if if ofType then names(node.value) == names(elem) else IsElement(t, node.value) {
          return false;
        }
      }
    }
  }

  lemma SameChild(elem: Path, i: nat)
    requires elem != []
    ensures ChildAt(elem[..|elem| - 1], i) == elem <==> i == elem[|elem| - 1]
  {
  }

  function ChildOrNone(t: Tree, parent: Path, at: int): Option<Path> {
    if 0 <= at < ChildCount(t, parent) then Some(ChildAt(parent, at)) else None
  }

  lemma SiblingLinks(t: Tree, parent: Path, at: int)
    requires 0 <= at < ChildCount(t, parent)
    ensures NextSibling(t, ChildAt(parent, at)) == ChildOrNone(t, parent, at + 1)
    ensures PreviousSibling(ChildAt(parent, at)) == ChildOrNone(t, parent, at - 1)
  {
  }

  /** Counted children a walk has left behind when it stands at `at`. */
  function Passed(t: Tree, counts: Path -> bool, parent: Path, forward: bool, at: int): nat {
    if forward then (if at < 0 then 0 else Count(counts, parent, 0, at))
    else if at + 1 < 0 then 0 else Count(counts, parent, at + 1, ChildCount(t, parent))
  }

  lemma NothingBetween(counts: Path -> bool, parent: Path, at: nat)
    ensures Count(counts, parent, at, at) == 0
  {
  }

  lemma PassedNext(t: Tree, counts: Path -> bool, parent: Path, forward: bool, at: int)
    requires 0 <= at < ChildCount(t, parent)
    ensures Passed(t, counts, parent, forward, if forward then at + 1 else at - 1)
         == Passed(t, counts, parent, forward, at) + (if counts(ChildAt(parent, at)) then 1 else 0)
  {
    if !forward {
      CountSplit(counts, parent, at, at + 1, ChildCount(t, parent));
    }
  }

  /** What each pseudo-class asks of a child. */
  ghost predicate Stands(t: Tree, counts: Path -> bool, kind: ChildType, a: int, b: int, elem: Path)
    requires elem != []
  {
    match kind
    case First => Position(t, counts, true, elem) == 1
    case Last => Position(t, counts, false, elem) == 1
    case Only => Position(t, counts, true, elem) == 1 && Position(t, counts, false, elem) == 1
    case Nth => exists n: nat :: Position(t, counts, true, elem) == a * n + b
    case NthLast => exists n: nat :: Position(t, counts, false, elem) == a * n + b
  }

  /** A sibling that the test counts. */
  predicate IsCounted(t: Tree, names: Path -> string, ofType: bool, parent: Path, i: nat, k: nat) {
    if ofType then names(parent + [k]) == names(parent + [i]) else IsElement(t, parent + [k])
  }

  /** No counted sibling before the child, or none behind it. */
  predicate IsFirst(t: Tree, names: Path -> string, ofType: bool, forward: bool, parent: Path, i: nat) {
    forall k: nat | k < ChildCount(t, parent) && (if forward then k < i else i < k) :: !IsCounted(t, names, ofType, parent, i, k)
  }

  /** `first`: no counted sibling before; `last`: none behind; `only`: neither; `nth` and
      `nth-last`: a*n + b are counted from that end up to the child. */
  lemma StandsMeans(t: Tree, names: Path -> string, ofType: bool, kind: ChildType, a: int, b: int, parent: Path, i: nat)
    requires i < ChildCount(t, parent) && IsElement(t, parent + [i])
    ensures Stands(t, Counted(t, names, ofType, parent + [i]), kind, a, b, parent + [i]) <==>
      if kind == First then IsFirst(t, names, ofType, true, parent, i)
      else if kind == Last then IsFirst(t, names, ofType, false, parent, i)
      else if kind == Only then IsFirst(t, names, ofType, true, parent, i) && IsFirst(t, names, ofType, false, parent, i)
      else if kind == Nth then exists n: nat :: |CountedUpTo(t, names, ofType, true, parent, i)| == a * n + b
      else exists n: nat :: |CountedUpTo(t, names, ofType, false, parent, i)| == a * n + b
  {
    hide IsElement, ChildCount, Position, Counted, IsFirst;
    PositionCounts(t, names, ofType, true, parent, i);
    PositionCounts(t, names, ofType, false, parent, i);
    AloneUpTo(t, names, ofType, true, parent, i);
    AloneUpTo(t, names, ofType, false, parent, i);
  }

  lemma AloneUpTo(t: Tree, names: Path -> string, ofType: bool, forward: bool, parent: Path, i: nat)
    requires i < ChildCount(t, parent) && IsElement(t, parent + [i])
    ensures |CountedUpTo(t, names, ofType, forward, parent, i)| == 1 <==> IsFirst(t, names, ofType, forward, parent, i)
  {
    var upTo := CountedUpTo(t, names, ofType, forward, parent, i);
    assert i in upTo;
    assert |upTo| == |upTo - {i}| + 1;
    if IsFirst(t, names, ofType, forward, parent, i) {
      forall k ensures k in upTo ==> k == i {
        assert k >= 0 ==> (IsCounted(t, names, ofType, parent, i, k) <==>
          if ofType then names(parent + [k]) == names(parent + [i]) else IsElement(t, parent + [k]));
      }
      assert upTo == {i};
    } else {
      var k: nat :| k < ChildCount(t, parent) && (if forward then k < i else i < k) && IsCounted(t, names, ofType, parent, i, k);
      assert k in upTo - {i};
    }
  }

  lemma ElementIsChild(t: Tree, elem: Path)
    requires elem != [] && IsElement(t, elem)
    ensures elem == ChildAt(elem[..|elem| - 1], elem[|elem| - 1])
    ensures elem[|elem| - 1] < ChildCount(t, elem[..|elem| - 1])
  {
    ElementIsValid(t, elem);
    ValidAppend(t, elem[..|elem| - 1], elem[|elem| - 1]);
  }

  lemma CountedIs(t: Tree, names: Path -> string, ofType: bool, elem: Path, n: Path)
    ensures Counted(t, names, ofType, elem)(n) <==> if ofType then names(n) == names(elem) else IsElement(t, n)
  {
  }

  /** A scan starts with nothing passed, and passing `elem` makes the count its position. */
  lemma PassedAtEnds(t: Tree, counts: Path -> bool, parent: Path, forward: bool, elem: Path)
    requires elem != [] && parent == elem[..|elem| - 1] && elem[|elem| - 1] < ChildCount(t, parent)
    ensures Passed(t, counts, parent, forward, if forward then 0 else ChildCount(t, parent) - 1) == 0
    ensures Position(t, counts, forward, elem)
         == Passed(t, counts, parent, forward, elem[|elem| - 1]) + (if counts(elem) then 1 else 0)
  {
    PassedNext(t, counts, parent, forward, elem[|elem| - 1]);
    assert ChildAt(parent, elem[|elem| - 1]) == elem;
  }

  /** Scanning from the last child, the running count is the position of the element passed. */
  lemma PositionOfPassed(t: Tree, names: Path -> string, elem: Path, parent: Path, at: int)
    requires 0 <= at < ChildCount(t, parent) && IsElement(t, ChildAt(parent, at))
    ensures Passed(t, Counted(t, names, false, elem), parent, false, at) + 1
         == Position(t, ElementsOf(t), false, ChildAt(parent, at))
  {
    PassedNext(t, Counted(t, names, false, elem), parent, false, at);
  }
}
