/** What a selector means: the existential-chain reading of section 8 of Selectors
    Level 3, anchored at a context node the way Sizzle anchors it. */
module Selectors {
  import opened Optional
  import opened Dom

  datatype Direction = ParentNode | PreviousSibling

  /** `Expr.relative`: ">", " ", "+" and "~". */
  datatype Combinator = Child | Descendant | Adjacent | General {
    function Dir(): Direction {
      if Child? || Descendant? then Direction.ParentNode else Direction.PreviousSibling
    }

    /** `first: true`: only the closest element in that direction counts. */
    predicate First() {
      Child? || Adjacent?
    }
  }

  datatype FilterType = ID | TAG | CLASS | ATTR | CHILD | PSEUDO

  /** A token of `tokenize`; `text` is the piece of selector it was read from. */
  datatype Token =
    | Relative(c: Combinator, text: string)
    | Simple(kind: FilterType, arg: string, text: string)

  predicate WellFormedToken(t: Token) {
    && t.text != []
    && (t.Relative? && t.c.Adjacent? ==> '+' in t.text)
    && (t.Relative? && t.c.General? ==> '~' in t.text)
  }

  /** A document and the truth of every simple filter at every node.  `html` is
      `documentIsHTML`; `classFind` and `idFind` are `support.getElementsByClassName`
      and `support.getById`. */
  datatype Page = Page(tree: Tree, sat: (FilterType, string, Path) -> bool, html: bool, classFind: bool, idFind: bool)

  predicate Satisfies(pg: Page, t: Token, e: Path)
    requires t.Simple?
  {
    pg.sat(t.kind, t.arg, e)
  }

  /** `a` stands in the relation of the combinator to `e`, for element `a`. */
  ghost predicate Related(t: Tree, c: Combinator, a: Path, e: Path) {
    match c
    case Child => e != [] && a == e[..|e| - 1]
    case Descendant => IsAncestor(a, e)
    case Adjacent =>
      && AreSiblings(a, e) && a[|a| - 1] < e[|e| - 1] && IsElement(t, a)
      && forall j | a[|a| - 1] < j < e[|e| - 1] :: !IsElement(t, e[..|e| - 1] + [j])
    case General =>
      AreSiblings(a, e) && a[|a| - 1] < e[|e| - 1] && IsElement(t, a)
  }

  function Lead(ts: seq<Token>): Option<Combinator> {
    if ts != [] && ts[0].Relative? then Some(ts[0].c) else None
  }

  /** The tokens after a leading combinator. */
  function Body(ts: seq<Token>): seq<Token> {
    if ts != [] && ts[0].Relative? then ts[1..] else ts
  }

  /** The runs of simple filters between combinators; a run may be empty. */
  function Compounds(body: seq<Token>): (r: seq<seq<Token>>)
    ensures |r| == |Combinators(body)| + 1
  {
    if body == [] then [[]]
    else
      var cs := Compounds(body[..|body| - 1]);
      var last := body[|body| - 1];
      if last.Relative? then cs + [[]]
      else cs[..|cs| - 1] + [cs[|cs| - 1] + [last]]
  }

  function Combinators(body: seq<Token>): seq<Combinator> {
    if body == [] then []
    else
      var last := body[|body| - 1];
      Combinators(body[..|body| - 1]) + (if last.Relative? then [last.c] else [])
  }

  predicate SatisfiesAll(pg: Page, compound: seq<Token>, e: Path) {
    forall i | 0 <= i < |compound| && compound[i].Simple? :: Satisfies(pg, compound[i], e)
  }

  /** Where the leftmost compound may match.  Without a leading combinator an HTML
      document confines it to the context's descendants. */
  ghost predicate Anchored(pg: Page, ctx: Path, lead: Option<Combinator>, e: Path) {
    match lead
    case Some(c) => Related(pg.tree, c, ctx, e)
    case None => pg.html ==> IsAncestor(ctx, e)
  }

  /** `ns` assigns an element to every compound, from left to right. */
  ghost predicate IsChain(pg: Page, ctx: Path, lead: Option<Combinator>, body: seq<Token>, ns: seq<Path>) {
    && |ns| == |Compounds(body)|
    && Anchored(pg, ctx, lead, ns[0])
    && (forall i | 0 <= i < |ns| :: SatisfiesAll(pg, Compounds(body)[i], ns[i]))
    && (forall i | 0 <= i < |ns| - 1 ::
          IsElement(pg.tree, ns[i]) && Related(pg.tree, Combinators(body)[i], ns[i], ns[i + 1]))
  }

  /** The element `e` is selected by one comma group. */
  ghost predicate Selected(pg: Page, ctx: Path, ts: seq<Token>, e: Path) {
    IsElement(pg.tree, e) &&
    exists ns :: IsChain(pg, ctx, Lead(ts), Body(ts), ns) && ns[|ns| - 1] == e
  }

  ghost predicate SelectedByAny(pg: Page, ctx: Path, groups: seq<seq<Token>>, e: Path) {
    exists g :: 0 <= g < |groups| && Selected(pg, ctx, groups[g], e)
  }

  // ---- The same meaning, read from right to left ----

  ghost predicate Means(pg: Page, ctx: Path, lead: Option<Combinator>, body: seq<Token>, e: Path)
    decreases |body|
  {
    if body == [] then Anchored(pg, ctx, lead, e)
    else
      var init, last := body[..|body| - 1], body[|body| - 1];
      match last
      case Simple(_, _, _) => Satisfies(pg, last, e) && Means(pg, ctx, lead, init, e)
      case Relative(c, _) =>
        exists a :: IsElement(pg.tree, a) && Related(pg.tree, c, a, e) && Means(pg, ctx, lead, init, a)
  }

  lemma {:induction false} ChainMeans(pg: Page, ctx: Path, lead: Option<Combinator>, body: seq<Token>, ns: seq<Path>)
    requires IsChain(pg, ctx, lead, body, ns)
    ensures Means(pg, ctx, lead, body, ns[|ns| - 1])
    decreases |body|
  {
    if body != [] {
      var init, last := body[..|body| - 1], body[|body| - 1];
      var cs := Compounds(init);
      if last.Relative? {
        forall i | 0 <= i < |ns| - 1 ensures SatisfiesAll(pg, cs[i], ns[..|ns| - 1][i]) {
          assert Compounds(body)[i] == cs[i];
        }
        ChainMeans(pg, ctx, lead, init, ns[..|ns| - 1]);
        assert Combinators(body)[|ns| - 2] == last.c;
        var a := ns[|ns| - 2];
        assert IsElement(pg.tree, a) && Related(pg.tree, last.c, a, ns[|ns| - 1]);
      } else {
        assert Compounds(body)[|ns| - 1] == cs[|cs| - 1] + [last];
        SatisfiesMore(pg, cs[|cs| - 1], last, ns[|ns| - 1]);
        forall i | 0 <= i < |ns| ensures SatisfiesAll(pg, cs[i], ns[i]) {
          assert i < |ns| - 1 ==> Compounds(body)[i] == cs[i];
        }
        ChainMeans(pg, ctx, lead, init, ns);
      }
    }
  }

  lemma SatisfiesMore(pg: Page, compound: seq<Token>, t: Token, e: Path)
    requires t.Simple?
    ensures SatisfiesAll(pg, compound + [t], e) <==> SatisfiesAll(pg, compound, e) && Satisfies(pg, t, e)
  {
    var more := compound + [t];
    assert more[|compound|] == t;
    assert forall k | 0 <= k < |compound| :: more[k] == compound[k];
  }

  lemma {:induction false} MeansChain(pg: Page, ctx: Path, lead: Option<Combinator>, body: seq<Token>, e: Path)
    returns (ns: seq<Path>)
    requires Means(pg, ctx, lead, body, e)
    ensures IsChain(pg, ctx, lead, body, ns) && ns[|ns| - 1] == e
    decreases |body|
  {
    if body == [] {
      ns := [e];
    } else {
      var init, last := body[..|body| - 1], body[|body| - 1];
      var cs := Compounds(init);
      if last.Relative? {
        var a :| IsElement(pg.tree, a) && Related(pg.tree, last.c, a, e) && Means(pg, ctx, lead, init, a);
        var shorter := MeansChain(pg, ctx, lead, init, a);
        ns := shorter + [e];
        forall i | 0 <= i < |ns| ensures SatisfiesAll(pg, Compounds(body)[i], ns[i]) {
          assert i < |shorter| ==> Compounds(body)[i] == cs[i];
        }
        forall i | 0 <= i < |ns| - 1
          ensures IsElement(pg.tree, ns[i]) && Related(pg.tree, Combinators(body)[i], ns[i], ns[i + 1])
        {
          assert i < |shorter| - 1 ==> Combinators(body)[i] == Combinators(init)[i];
        }
      } else {
        ns := MeansChain(pg, ctx, lead, init, e);
        forall i | 0 <= i < |ns| ensures SatisfiesAll(pg, Compounds(body)[i], ns[i]) {
          assert SatisfiesAll(pg, cs[i], ns[i]);
          assert i < |ns| - 1 ==> Compounds(body)[i] == cs[i];
        }
      }
    }
  }

  /** Reading right to left loses nothing and adds nothing. */
  lemma SelectedMeans(pg: Page, ctx: Path, ts: seq<Token>, e: Path)
    ensures Selected(pg, ctx, ts, e) <==> IsElement(pg.tree, e) && Means(pg, ctx, Lead(ts), Body(ts), e)
  {
    if Selected(pg, ctx, ts, e) {
      var ns :| IsChain(pg, ctx, Lead(ts), Body(ts), ns) && ns[|ns| - 1] == e;
      ChainMeans(pg, ctx, Lead(ts), Body(ts), ns);
    }
    if IsElement(pg.tree, e) && Means(pg, ctx, Lead(ts), Body(ts), e) {
      var _ := MeansChain(pg, ctx, Lead(ts), Body(ts), e);
    }
  }

  /** A filter of the rightmost compound can be tested apart from the rest. */
  lemma {:induction false} DropFilter(pg: Page, ctx: Path, lead: Option<Combinator>, body: seq<Token>, i: nat, e: Path)
    requires i < |body| && forall k | i <= k < |body| :: body[k].Simple?
    ensures Means(pg, ctx, lead, body, e) <==>
            Satisfies(pg, body[i], e) && Means(pg, ctx, lead, body[..i] + body[i + 1..], e)
    decreases |body|
  {
    var rest := body[..i] + body[i + 1..];
    if i == |body| - 1 {
      assert rest == body[..i];
    } else {
      var init := body[..|body| - 1];
      DropFilter(pg, ctx, lead, init, i, e);
      assert rest[..|rest| - 1] == init[..i] + init[i + 1..];
      assert rest[|rest| - 1] == body[|body| - 1];
    }
  }

  /** Every step of a chain stays below whatever the chain started below. */
  lemma {:induction false} MeansStaysBelow(pg: Page, ctx: Path, lead: Option<Combinator>, body: seq<Token>, top: Path, e: Path)
    requires Means(pg, ctx, lead, body, e)
    requires forall n :: Anchored(pg, ctx, lead, n) ==> IsAncestor(top, n)
    ensures IsAncestor(top, e)
    decreases |body|
  {
    if body != [] {
      var init, last := body[..|body| - 1], body[|body| - 1];
      if last.Relative? {
        var a :| IsElement(pg.tree, a) && Related(pg.tree, last.c, a, e) && Means(pg, ctx, lead, init, a);
        MeansStaysBelow(pg, ctx, lead, init, top, a);
        RelatedStaysBelow(pg.tree, last.c, top, a, e);
      } else {
        MeansStaysBelow(pg, ctx, lead, init, top, e);
      }
    }
  }

  lemma RelatedStaysBelow(t: Tree, c: Combinator, top: Path, a: Path, e: Path)
    requires IsAncestor(top, a) && Related(t, c, a, e)
    ensures IsAncestor(top, e)
  {
    match c
    case Child => assert e[..|top|] == a[..|top|];
    case Descendant => assert e[..|top|] == a[..|top|];
    case Adjacent => assert e[..|top|] == e[..|e| - 1][..|top|] == a[..|top|];
    case General => assert e[..|top|] == e[..|e| - 1][..|top|] == a[..|top|];
  }
}
