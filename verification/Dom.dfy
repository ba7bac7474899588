/** A finite ordered tree of DOM nodes.  A node is identified by the path of child
    indices that leads to it from the document node, so `[]` is the document itself. */
module Dom {
  import opened Optional

  /** `element` says whether `nodeType` is 1; text and comment nodes have it false. */
  datatype Tree = Tree(element: bool, children: seq<Tree>)

  type Path = seq<nat>

  predicate Valid(t: Tree, p: Path) {
    p == [] || (p[0] < |t.children| && Valid(t.children[p[0]], p[1..]))
  }

  predicate IsElement(t: Tree, p: Path) {
    if p == [] then t.element
    else p[0] < |t.children| && IsElement(t.children[p[0]], p[1..])
  }

  /** The shape every document has: the document node is not an element, and a node
      other than the document has children only if it is an element. */
  predicate WellFormed(t: Tree) {
    !t.element && forall i | 0 <= i < |t.children| :: OnlyElementsHaveChildren(t.children[i])
  }

  predicate OnlyElementsHaveChildren(t: Tree) {
    && (t.children != [] ==> t.element)
    && forall i | 0 <= i < |t.children| :: OnlyElementsHaveChildren(t.children[i])
  }

  /** `childNodes.length` of the node at `p`. */
  function ChildCount(t: Tree, p: Path): nat {
    if p == [] then |t.children|
    else if p[0] < |t.children| then ChildCount(t.children[p[0]], p[1..])
    else 0
  }

  function ParentNode(p: Path): Option<Path> {
    if p == [] then None else Some(p[..|p| - 1])
  }

  function PreviousSibling(p: Path): Option<Path> {
    if p == [] || p[|p| - 1] == 0 then None else Some(p[..|p| - 1] + [p[|p| - 1] - 1])
  }

  function NextSibling(t: Tree, p: Path): Option<Path> {
    if p == [] || p[|p| - 1] + 1 >= ChildCount(t, p[..|p| - 1]) then None
    else Some(p[..|p| - 1] + [p[|p| - 1] + 1])
  }

  /** Document order: an ancestor comes before its descendants, and otherwise the first
      differing child index decides. */
  predicate Before(a: Path, b: Path) {
    b != [] && (a == [] || a[0] < b[0] || (a[0] == b[0] && Before(a[1..], b[1..])))
  }

  predicate IsAncestor(a: Path, b: Path) {
    |a| < |b| && a == b[..|a|]
  }

  predicate AreSiblings(a: Path, b: Path) {
    a != [] && b != [] && a[..|a| - 1] == b[..|b| - 1]
  }

  // ---- Document order is a strict total order ----

  lemma {:induction false} BeforeTotal(a: Path, b: Path)
    ensures a != b ==> Before(a, b) || Before(b, a)
    ensures !(Before(a, b) && Before(b, a))
    ensures !Before(a, a)
  {
    if a != [] && b != [] && a[0] == b[0] {
      assert a == [a[0]] + a[1..] && b == [b[0]] + b[1..];
      BeforeTotal(a[1..], b[1..]);
    }
    if a != [] {
      BeforeTotal(a[1..], a[1..]);
    }
  }

  lemma {:induction false} BeforeTransitive(a: Path, b: Path, c: Path)
    requires Before(a, b) && Before(b, c)
    ensures Before(a, c)
  {
    if a != [] && a[0] == b[0] == c[0] {
      BeforeTransitive(a[1..], b[1..], c[1..]);
    }
  }

  /** Where two nodes first differ below a common ancestor decides their order. */
  lemma {:induction false} BeforeAtDifference(p: Path, a: Path, b: Path)
    ensures Before(p + a, p + b) <==> Before(a, b)
  {
    if p == [] {
      assert p + a == a && p + b == b;
    } else {
      assert (p + a)[1..] == p[1..] + a && (p + b)[1..] == p[1..] + b;
      BeforeAtDifference(p[1..], a, b);
    }
  }

  lemma {:induction false} AncestorIsBefore(a: Path, b: Path)
    requires IsAncestor(a, b)
    ensures Before(a, b)
  {
    assert b == a + b[|a|..] && a == a + [];
    BeforeAtDifference(a, [], b[|a|..]);
  }

  lemma {:induction false} EarlierSiblingIsBefore(p: Path, i: nat, j: nat)
    ensures Before(p + [i], p + [j]) <==> i < j
  {
    BeforeAtDifference(p, [i], [j]);
  }

  // ---- Validity of the nodes reached by the DOM links ----

  lemma {:induction false} ValidAppend(t: Tree, p: Path, i: nat)
    ensures Valid(t, p + [i]) <==> Valid(t, p) && i < ChildCount(t, p)
  {
    if p == [] {
      assert p + [i] == [i];
    } else {
      assert (p + [i])[0] == p[0] && (p + [i])[1..] == p[1..] + [i];
      if p[0] < |t.children| {
        ValidAppend(t.children[p[0]], p[1..], i);
      }
    }
  }

  lemma {:induction false} ElementIsValid(t: Tree, p: Path)
    requires IsElement(t, p)
    ensures Valid(t, p)
  {
    if p != [] {
      ElementIsValid(t.children[p[0]], p[1..]);
    }
  }

  lemma {:induction false} ParentIsElementAux(t: Tree, p: Path)
    requires OnlyElementsHaveChildren(t) && p != [] && Valid(t, p)
    ensures IsElement(t, p[..|p| - 1])
  {
    if |p| > 1 {
      assert p[..|p| - 1][1..] == p[1..][..|p[1..]| - 1];
      ParentIsElementAux(t.children[p[0]], p[1..]);
    }
  }

  /** In a well-formed document the parent of a node is an element or the document. */
  lemma {:induction false} ParentIsElement(t: Tree, p: Path)
    requires WellFormed(t) && |p| > 1 && Valid(t, p)
    ensures IsElement(t, p[..|p| - 1])
  {
    assert p[..|p| - 1][1..] == p[1..][..|p[1..]| - 1];
    ParentIsElementAux(t.children[p[0]], p[1..]);
  }

  // ---- Preorder: the document order of the whole tree as a list ----

  function Graft(i: nat, ps: seq<Path>): (r: seq<Path>)
    ensures |r| == |ps| && forall k | 0 <= k < |ps| :: r[k] == [i] + ps[k]
  {
    seq(|ps|, k requires 0 <= k < |ps| => [i] + ps[k])
  }

  /** The nodes of `t` in the order of a depth-first walk, the root first. */
  function Preorder(t: Tree): seq<Path>
    decreases t, 1
  {
    [[]] + PreorderFrom(t, 0)
  }

  function PreorderFrom(t: Tree, i: nat): seq<Path>
    decreases t, 0, |t.children| - i
  {
    if i >= |t.children| then []
    else Graft(i, Preorder(t.children[i])) + PreorderFrom(t, i + 1)
  }

  ghost predicate Increasing(ps: seq<Path>) {
    forall i, j | 0 <= i < j < |ps| :: Before(ps[i], ps[j])
  }

  lemma {:induction false} PreorderMembers(t: Tree, p: Path)
    ensures p in Preorder(t) <==> Valid(t, p)
    decreases t, 1
  {
    if p == [] {
      assert Preorder(t)[0] == [];
    } else {
      PreorderFromMembers(t, 0, p);
    }
  }

  lemma {:induction false} PreorderFromMembers(t: Tree, i: nat, p: Path)
    ensures p in PreorderFrom(t, i) <==> p != [] && i <= p[0] && Valid(t, p)
    decreases t, 0, |t.children| - i
  {
    if i < |t.children| {
      var sub := Preorder(t.children[i]);
      PreorderFromMembers(t, i + 1, p);
      if p != [] {
        PreorderMembers(t.children[i], p[1..]);
        if p[0] == i && p[1..] in sub {
          var k :| 0 <= k < |sub| && sub[k] == p[1..];
          assert Graft(i, sub)[k] == p;
        }
      }
      assert forall k | 0 <= k < |sub| :: Graft(i, sub)[k][1..] == sub[k];
    }
  }

  lemma {:induction false} PreorderIncreasing(t: Tree)
    ensures Increasing(Preorder(t))
    decreases t, 1
  {
    PreorderFromIncreasing(t, 0);
    forall p | p in PreorderFrom(t, 0) ensures Before([], p) {
      PreorderFromMembers(t, 0, p);
    }
  }

  lemma {:induction false} PreorderFromIncreasing(t: Tree, i: nat)
    ensures Increasing(PreorderFrom(t, i))
    decreases t, 0, |t.children| - i
  {
    if i < |t.children| {
      var sub := Preorder(t.children[i]);
      var here := Graft(i, sub);
      var rest := PreorderFrom(t, i + 1);
      PreorderIncreasing(t.children[i]);
      PreorderFromIncreasing(t, i + 1);
      forall j, k | 0 <= j < k < |here| ensures Before(here[j], here[k]) {
        assert here[j][1..] == sub[j] && here[k][1..] == sub[k];
      }
      forall j, k | 0 <= j < |here| && 0 <= k < |rest| ensures Before(here[j], rest[k]) {
        PreorderFromMembers(t, i + 1, rest[k]);
      }
    }
  }

  /** Positions in the depth-first walk agree with `Before`. */
  lemma {:induction false} PreorderPosition(t: Tree, i: nat, j: nat)
    requires i < |Preorder(t)| && j < |Preorder(t)|
    ensures i < j <==> Before(Preorder(t)[i], Preorder(t)[j])
  {
    PreorderIncreasing(t);
    BeforeTotal(Preorder(t)[i], Preorder(t)[j]);
    if j < i {
      assert Before(Preorder(t)[j], Preorder(t)[i]);
    }
  }
}
