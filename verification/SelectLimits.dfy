/** Where `select` falls short of the plain reading of selectors: IDs that several elements
    share, and contexts in XML documents. */
module SelectLimits {
  import opened Optional
  import opened Dom
  import opened Selectors
  import opened Select

  // ---- IDs that several elements share ----

  /** The seed of an ID is complete exactly when no two elements share that ID. */
  lemma IdSeedIsCompleteIffUnique(pg: Page, arg: string)
    requires WellFormed(pg.tree) && Find(pg, ID, arg, []).Some?
    ensures UniqueId(pg, arg) <==>
            forall p | IsElement(pg.tree, p) && pg.sat(ID, arg, p) :: p in Find(pg, ID, arg, []).value
  {
    FirstFound(pg, arg);
    if UniqueId(pg, arg) {
      forall p | IsElement(pg.tree, p) && pg.sat(ID, arg, p)
        ensures p in Find(pg, ID, arg, []).value
      {
        UniqueIsFirst(pg, arg, p);
      }
    }
  }

  /** `#id` alone selects every element with the ID and reports the first. */
  lemma IdAlone(pg: Page, arg: string, text: string, e: Path)
    requires WellFormed(pg.tree) && pg.html && pg.idFind
    ensures var ts := [Simple(ID, arg, text)];
      && (Selected(pg, [], ts, e) <==> IsElement(pg.tree, e) && pg.sat(ID, arg, e))
      && (Reports(pg, [], [ts], false, e) <==> IsFirstWith(pg, arg, e))
  {
    var ts := [Simple(ID, arg, text)];
    RootIsNoElement(pg);
    SelectedMeans(pg, [], ts, e);
    assert ts[..0] == [];
    assert Means(pg, [], None, ts, e) <==> Satisfies(pg, ts[0], e) && IsAncestor([], e);
    assert SeedIndex(pg, [], ts, 1) == Some(0);
    hide Selected, Means, IsElement, WellFormed, Find, Scope, SeedIndex;
  }

  /** Under a leading ID, with a combinator and more behind it, the rest is selected from every
      element with the ID, and reported from the first. */
  lemma IdThenRest(pg: Page, ts: seq<Token>, positional: bool, e: Path)
    requires WellFormed(pg.tree) && pg.html && pg.idFind
    requires |ts| > 2 && ts[0].Simple? && ts[0].kind == ID && ts[1].Relative?
    ensures Selected(pg, [], ts, e) <==>
            exists top :: IsElement(pg.tree, top) && pg.sat(ID, ts[0].arg, top) && Selected(pg, top, ts[1..], e)
    ensures Reports(pg, [], [ts], positional, e) <==>
            exists top :: IsFirstWith(pg, ts[0].arg, top) && Selected(pg, top, ts[1..], e)
  {
    RootIsNoElement(pg);
    hide Selected, WellFormed, Scope, SeedId;
    IdShortcutSelects(pg, ts, e);
    forall top | IsElement(pg.tree, top)
      ensures GroupReports(pg, top, ts[1..], positional, e) <==> Selected(pg, top, ts[1..], e)
    {
      NoIdAtElement(pg, top, ts[1..], positional);
    }
  }

  /** A filter that the browser can search by, below the context, in an HTML document. */
  predicate Searchable(pg: Page, ctx: Path, t: Token) {
    t.Simple? && (t.kind == TAG || (t.kind == CLASS && pg.classFind) || (t.kind == ID && pg.idFind && ctx == []))
  }

  /** Token `j` is the last filter of the last compound that the browser can search by. */
  predicate IsLastSearchable(pg: Page, ctx: Path, ts: seq<Token>, j: nat) {
    && j < |ts| && Searchable(pg, ctx, ts[j])
    && forall k | j < k < |ts| :: ts[k].Simple? && !Searchable(pg, ctx, ts[k])
  }

  lemma {:induction false} HtmlSeedIsLast(pg: Page, ctx: Path, ts: seq<Token>, i: nat)
    requires pg.html && i <= |ts|
    ensures forall j: nat :: SeedIndex(pg, ctx, ts, i) == Some(j) <==>
      && j < i && Searchable(pg, ctx, ts[j]) && forall k | j < k < i :: ts[k].Simple? && !Searchable(pg, ctx, ts[k])
    decreases i
  {
    hide ElementsWith;
    if i > 0 {
      HtmlSeedIsLast(pg, ctx, ts, i - 1);
    }
  }

  /** Does the group begin with ">", "+" or "~", or has the selector a positional filter? */
  predicate LooksAtContext(ts: seq<Token>, positional: bool) {
    positional || (ts != [] && ts[0].Relative? && (ts[0].c.Child? || ts[0].c.Adjacent? || ts[0].c.General?))
  }

  /** In an HTML document one group reports all selected elements, unless the document is searched
      by an ID: then, of the selected ones, only the first element with that ID. */
  lemma HtmlReports(pg: Page, ctx: Path, ts: seq<Token>, positional: bool, e: Path)
    requires pg.html && !(ctx == [] && pg.idFind && |ts| > 2 && ts[0].Simple? && ts[0].kind == ID && ts[1].Relative?)
    ensures Reports(pg, ctx, [ts], positional, e) <==>
      && Selected(pg, ctx, ts, e)
      && forall j: nat | IsLastSearchable(pg, ctx, ts, j) && ts[j].kind == ID && !LooksAtContext(ts, positional) ::
           IsFirstWith(pg, ts[j].arg, e)
  {
    hide Selected, IsFirstWith, Searchable, Scope;
    HtmlSeedIsLast(pg, ctx, ts, |ts|);
    assert forall j: nat :: IsLastSearchable(pg, ctx, ts, j) <==> SeedIndex(pg, ctx, ts, |ts|) == Some(j);
    hide SeedIndex, IsLastSearchable;
  }

  /** Two elements with one ID, each with a child. */
  function TwoWithOneId(): Page {
    var parent := Tree(true, [Tree(true, [])]);
    Page(Tree(false, [parent, parent]), (kind, arg, p) => kind == ID ==> |p| == 1, true, true, true)
  }

  /** `#a`: the second element is selected but not reported. */
  lemma SecondWithIdIsMissed()
    ensures var pg, ts := TwoWithOneId(), [Simple(ID, "a", "#a")];
      && WellFormedCall(pg, [], [ts])
      && Selected(pg, [], ts, [1]) && !Reports(pg, [], [ts], false, [1])
  {
    assert WellFormedGroup([Simple(ID, "a", "#a")]);
    hide *;
    TwoElements();
    IdAlone(TwoWithOneId(), "a", "#a", [1]);
    DocumentCall(TwoWithOneId(), [Simple(ID, "a", "#a")]);
  }

  function ChildSelector(): seq<Token> {
    [Simple(ID, "a", "#a"), Relative(Child, ">"), Simple(TAG, "b", "b")]
  }

  lemma ChildSelectorIs()
    ensures var ts := ChildSelector();
      && WellFormedGroup(ts) && TwoWithOneId().html && TwoWithOneId().idFind && |ts| > 2 && ts[0] == Simple(ID, "a", "#a")
      && ts[1..] == [Relative(Child, ">"), Simple(TAG, "b", "b")]
  {
    assert forall i | 0 <= i < 3 :: WellFormedToken(ChildSelector()[i]);
  }

  /** `#a > b`: the child of the second element is selected but not reported. */
  lemma ChildOfSecondIsMissed()
    ensures var pg, ts := TwoWithOneId(), ChildSelector();
      && WellFormedCall(pg, [], [ts])
      && Selected(pg, [], ts, [1, 0]) && !Reports(pg, [], [ts], false, [1, 0])
  {
    hide *;
    var pg, ts := TwoWithOneId(), ChildSelector();
    TwoElements();
    ChildSelectorIs();
    IdThenRest(pg, ts, false, [1, 0]);
    forall top ensures Selected(pg, top, ts[1..], [1, 0]) <==> top == [1] {
      OnlyChild(pg, top, Relative(Child, ">"), Simple(TAG, "b", "b"));
    }
    DocumentCall(pg, ts);
  }

  lemma DocumentCall(pg: Page, ts: seq<Token>)
    requires WellFormed(pg.tree) && WellFormedGroup(ts)
    ensures WellFormedCall(pg, [], [ts])
  {
  }

  lemma OnlyChild(pg: Page, top: Path, c: Token, t: Token)
    requires pg == TwoWithOneId() && c == Relative(Child, ">") && t == Simple(TAG, "b", "b")
    ensures Selected(pg, top, [c, t], [1, 0]) <==> top == [1]
  {
    TwoElements();
    assert Lead([c, t]) == Some(Child) && Body([c, t]) == [t];
    hide *;
    SelectedMeans(pg, top, [c, t], [1, 0]);
    ChildMeans(pg, top, t);
  }

  lemma ChildMeans(pg: Page, top: Path, t: Token)
    requires pg == TwoWithOneId() && t == Simple(TAG, "b", "b")
    ensures Means(pg, top, Some(Child), [t], [1, 0]) <==> top == [1]
  {
    assert [t][..0] == [] && [1, 0][..1] == [1];
    assert Means(pg, top, Some(Child), [], [1, 0]) <==> Related(pg.tree, Child, top, [1, 0]);
  }

  lemma TwoElements()
    ensures var pg := TwoWithOneId();
      && WellFormed(pg.tree) && IsElement(pg.tree, [0]) && IsElement(pg.tree, [1]) && IsElement(pg.tree, [1, 0])
      && pg.sat(ID, "a", [1]) && !IsFirstWith(pg, "a", [1]) && !UniqueId(pg, "a")
  {
    var pg := TwoWithOneId();
    assert [1, 0][1..] == [0] && [0][1..] == [] && [1][1..] == [];
    assert IsElement(pg.tree, [0]) && IsElement(pg.tree, [1]);
    assert [0] != [1] && !Before([1], [0]);
    assert pg.sat(ID, "a", [0]) && pg.sat(ID, "a", [1]);
  }

  // ---- Contexts in XML documents ----

  /** Is there a type selector in the last compound before `i`? */
  predicate TypeInLast(ts: seq<Token>, i: nat)
    requires i <= |ts|
  {
    exists j :: 0 <= j < i && IsType(ts[j]) && AllSimple(ts, j, i)
  }

  predicate IsType(t: Token) {
    t.Simple? && t.kind == TAG
  }

  predicate AllSimple(ts: seq<Token>, from: nat, to: nat)
    requires to <= |ts|
  {
    forall k | from <= k < to :: ts[k].Simple?
  }

  /** The only seeds of XML documents are those of type selectors. */
  lemma {:induction false} XmlSeedIsType(pg: Page, ctx: Path, ts: seq<Token>, i: nat)
    requires !pg.html && i <= |ts|
    ensures SeedIndex(pg, ctx, ts, i).Some? <==> TypeInLast(ts, i)
    ensures SeedIndex(pg, ctx, ts, i).Some? ==> ts[SeedIndex(pg, ctx, ts, i).value].kind == TAG
  {
    if i > 0 {
      XmlSeedIsType(pg, ctx, ts, i - 1);
      assert IsType(ts[i - 1]) ==> AllSimple(ts, i - 1, i);
      if ts[i - 1].Simple? {
        assert forall j | 0 <= j < i - 1 :: AllSimple(ts, j, i) <==> AllSimple(ts, j, i - 1);
      }
    }
  }

  /** A plus sign or tilde anywhere in the text widens the search to the context's parent, unless
      a type selector gives a seed.  In XML documents this depends on the selector alone. */
  predicate Widens(groups: seq<seq<Token>>, positional: bool)
    requires groups != []
  {
    && AnyMentionsSibling(groups)
    && (|groups| > 1 || NeedsContext(groups[0], positional) || !TypeInLast(groups[0], |groups[0]|))
  }

  /** `Widens`, spelt out. */
  lemma WidensWhen(groups: seq<seq<Token>>, positional: bool)
    requires groups != [] && WellFormedGroup(groups[0])
    ensures Widens(groups, positional) <==>
      && (exists g, i :: 0 <= g < |groups| && 0 <= i < |groups[g]| && ('+' in groups[g][i].text || '~' in groups[g][i].text))
      && (|groups| > 1 || positional || (groups[0][0].Relative? && !groups[0][0].c.Descendant?)
          || !exists j :: 0 <= j < |groups[0]| && IsType(groups[0][j]) && forall k | j <= k < |groups[0]| :: groups[0][k].Simple?)
  {
    MarkAnywhere(groups);
    hide AnyMentionsSibling, MentionsSibling;
    assert forall j: nat | j <= |groups[0]| ::
      AllSimple(groups[0], j, |groups[0]|) <==> forall k | j <= k < |groups[0]| :: groups[0][k].Simple?;
  }

  lemma MarkAnywhere(groups: seq<seq<Token>>)
    ensures AnyMentionsSibling(groups) <==>
      exists g, i :: 0 <= g < |groups| && 0 <= i < |groups[g]| && ('+' in groups[g][i].text || '~' in groups[g][i].text)
  {
    if g, i :| 0 <= g < |groups| && 0 <= i < |groups[g]| && ('+' in groups[g][i].text || '~' in groups[g][i].text) {
      assert MentionsSibling(groups[g]);
    }
  }

  /** The nodes searched in an XML document: those below the context's parent if there is a plus
      sign or tilde in the text of any token of any group, and no type selector in the last compound
      of a lone group gives a seed; else those below the context. */
  lemma XmlScope(pg: Page, ctx: Path, groups: seq<seq<Token>>, positional: bool)
    requires !pg.html && groups != [] && WellFormedGroup(groups[0])
    ensures Scope(pg, ctx, groups, positional) ==
      if && ctx != []
         && (exists g, i :: 0 <= g < |groups| && 0 <= i < |groups[g]| && ('+' in groups[g][i].text || '~' in groups[g][i].text))
         && (|groups| > 1 || positional || (groups[0][0].Relative? && !groups[0][0].c.Descendant?)
             || !exists j :: 0 <= j < |groups[0]| && IsType(groups[0][j]) && forall k | j <= k < |groups[0]| :: groups[0][k].Simple?)
      then ctx[..|ctx| - 1] else ctx
  {
    XmlSeedIsType(pg, ctx, groups[0], |groups[0]|);
    WidensWhen(groups, positional);
    hide SeedIndex, TypeInLast, AnyMentionsSibling;
  }

  /** With a sibling combinator, or a plus sign or tilde in any token of any group, and no type
      selector in the last compound of a lone group, every selected element below the context's
      parent is appended. */
  lemma XmlSearchIsWide(pg: Page, ctx: Path, groups: seq<seq<Token>>, positional: bool, results: seq<Path>, out: seq<Path>)
    requires WellFormedCall(pg, ctx, groups) && !pg.html && ctx != []
    requires AppendsReports(pg, ctx, groups, positional, results, out)
    requires exists g, i :: 0 <= g < |groups| && 0 <= i < |groups[g]| && Marked(groups[g][i])
    requires |groups| == 1 ==>
      !exists j :: 0 <= j < |groups[0]| && IsType(groups[0][j]) && forall k | j <= k < |groups[0]| :: groups[0][k].Simple?
    ensures forall g, e | 0 <= g < |groups| && Selected(pg, ctx, groups[g], e) && IsAncestor(ctx[..|ctx| - 1], e) ::
              e in out[|results|..]
  {
    var g, i :| 0 <= g < |groups| && 0 <= i < |groups[g]| && Marked(groups[g][i]);
    assert WellFormedGroup(groups[0]) && WellFormedGroup(groups[g]) && WellFormedToken(groups[g][i]);
    XmlScope(pg, ctx, groups, positional);
    hide Selected, Reports, Scope, WellFormedCall;
    forall g, e | 0 <= g < |groups| && Selected(pg, ctx, groups[g], e) && IsAncestor(ctx[..|ctx| - 1], e)
      ensures e in out[|results|..]
    {
      XmlReports(pg, ctx, groups, positional, e);
    }
  }

  /** A sibling combinator, or one of its signs inside the token. */
  predicate Marked(t: Token) {
    (t.Relative? && (t.c.Adjacent? || t.c.General?)) || '+' in t.text || '~' in t.text
  }

  /** Without them everything appended lies below the context. */
  lemma XmlSearchIsNarrow(pg: Page, ctx: Path, groups: seq<seq<Token>>, positional: bool, results: seq<Path>, out: seq<Path>)
    requires WellFormedCall(pg, ctx, groups) && !pg.html
    requires AppendsReports(pg, ctx, groups, positional, results, out)
    requires forall g, i | 0 <= g < |groups| && 0 <= i < |groups[g]| :: !Marked(groups[g][i])
    ensures forall e | e in out[|results|..] :: IsAncestor(ctx, e)
  {
    assert WellFormedGroup(groups[0]);
    XmlScope(pg, ctx, groups, positional);
    hide Selected, Reports, Scope, WellFormedCall;
    forall e | e in out[|results|..] ensures IsAncestor(ctx, e) {
      XmlReports(pg, ctx, groups, positional, e);
    }
  }

  /** Led by ">" or by white space. */
  predicate LedDown(ts: seq<Token>) {
    Lead(ts).Some? && Lead(ts).value.Dir().ParentNode?
  }

  predicate AllLedDown(groups: seq<seq<Token>>) {
    forall g | 0 <= g < |groups| :: LedDown(groups[g])
  }

  /** In an XML document `select` reports an element that is not below the context. */
  ghost predicate Strays(pg: Page, ctx: Path, groups: seq<seq<Token>>, positional: bool, e: Path) {
    && WellFormedCall(pg, ctx, groups) && !pg.html
    && Reports(pg, ctx, groups, positional, e) && !IsAncestor(ctx, e)
  }

  lemma XmlReports(pg: Page, ctx: Path, groups: seq<seq<Token>>, positional: bool, e: Path)
    requires !pg.html && groups != []
    ensures Reports(pg, ctx, groups, positional, e) <==>
            SelectedByAny(pg, ctx, groups, e) && IsAncestor(Scope(pg, ctx, groups, positional), e)
  {
    hide Selected, Scope, SelectedByAny;
    if |groups| == 1 {
      assert groups == [groups[0]];
      OneGroup(pg, ctx, groups[0], e);
      XmlSeedIsType(pg, ctx, groups[0], |groups[0]|);
    }
  }

  lemma LedDownStaysBelow(pg: Page, ctx: Path, ts: seq<Token>, e: Path)
    requires LedDown(ts) && Selected(pg, ctx, ts, e)
    ensures IsAncestor(ctx, e)
  {
    SelectedMeans(pg, ctx, ts, e);
    MeansStaysBelow(pg, ctx, Lead(ts), Body(ts), ctx, e);
  }

  lemma StaysBelow(pg: Page, ctx: Path, groups: seq<seq<Token>>, positional: bool, e: Path)
    requires groups != [] && (!Widens(groups, positional) || AllLedDown(groups))
    ensures !Strays(pg, ctx, groups, positional, e)
  {
    hide Selected;
    if !pg.html && WellFormedCall(pg, ctx, groups) && Reports(pg, ctx, groups, positional, e) {
      assert WellFormedGroup(groups[0]);
      XmlReports(pg, ctx, groups, positional, e);
      XmlScope(pg, ctx, groups, positional);
      WidensWhen(groups, positional);
      if Widens(groups, positional) {
        var g :| 0 <= g < |groups| && Selected(pg, ctx, groups[g], e);
        LedDownStaysBelow(pg, ctx, groups[g], e);
      }
    }
  }

  // ---- A page on which every selector finds something ----

  function FullTree(width: nat, depth: nat): Tree {
    Tree(true, if depth == 0 then [] else seq(width, _ => FullTree(width, depth - 1)))
  }

  lemma {:induction false} FullElements(width: nat, depth: nat, p: Path)
    ensures OnlyElementsHaveChildren(FullTree(width, depth))
    ensures IsElement(FullTree(width, depth), p) <==> |p| <= depth && forall i | 0 <= i < |p| :: p[i] < width
  {
    if depth > 0 {
      FullElements(width, depth - 1, []);
      if p != [] {
        FullElements(width, depth - 1, p[1..]);
        assert p == [p[0]] + p[1..];
      }
    }
  }

  /** Elements everywhere, `n + 2` wide and deep, that satisfy every filter. */
  function FullPage(n: nat): Page {
    Page(Tree(false, seq(n + 2, _ => FullTree(n + 2, n + 1))), (kind, arg, p) => true, false, false, false)
  }

  lemma FullPageElements(n: nat, p: Path)
    ensures WellFormed(FullPage(n).tree)
    ensures IsElement(FullPage(n).tree, p) <==> 1 <= |p| <= n + 2 && forall i | 0 <= i < |p| :: p[i] < n + 2
  {
    hide FullTree, IsElement, WellFormed, OnlyElementsHaveChildren;
    var child := FullTree(n + 2, n + 1);
    FullElements(n + 2, n + 1, []);
    SameChildren(child, n + 2, p);
    assert FullPage(n).tree == Tree(false, seq(n + 2, _ => child));
    if p != [] {
      FullElements(n + 2, n + 1, p[1..]);
      assert p == [p[0]] + p[1..];
    }
  }

  lemma SameChildren(child: Tree, width: nat, p: Path)
    ensures var t := Tree(false, seq(width, _ => child));
      && (OnlyElementsHaveChildren(child) ==> WellFormed(t))
      && (IsElement(t, p) <==> p != [] && p[0] < width && IsElement(child, p[1..]))
  {
  }

  /** From the second child of the document, a step down or to the right for each combinator. */
  function Steps(body: seq<Token>): (p: Path)
    ensures 1 <= |p| <= |body| + 1 && p[0] >= 1
    ensures forall i | 0 <= i < |p| :: p[i] <= |body| + 1
  {
    if body == [] then [1]
    else
      var before, last := Steps(body[..|body| - 1]), body[|body| - 1];
      if last.Simple? then before
      else StepAlong(last.c, before)
  }

  lemma {:induction false} StepsMean(n: nat, lead: Option<Combinator>, body: seq<Token>)
    requires |body| <= n && (lead.Some? ==> !lead.value.Dir().ParentNode?)
    ensures Means(FullPage(n), [0], lead, body, Steps(body))
  {
    hide FullPage, IsElement, Steps;
    var pg := FullPage(n);
    FullPageSatisfies(n);
    if body == [] {
      StepsStart();
      FullPageElements(n, [0]);
      StepRelates(pg.tree, Adjacent, [0]);
      StepRelates(pg.tree, General, [0]);
    } else {
      var init, last := body[..|body| - 1], body[|body| - 1];
      StepsUnfold(body);
      StepsMean(n, lead, init);
      if last.Relative? {
        FullPageElements(n, Steps(init));
        StepRelates(pg.tree, last.c, Steps(init));
      }
    }
  }

  lemma FullPageSatisfies(n: nat)
    ensures !FullPage(n).html && forall t: Token, e :: t.Simple? ==> Satisfies(FullPage(n), t, e)
  {
  }

  function StepAlong(c: Combinator, a: Path): Path
    requires a != []
  {
    if c.Dir().ParentNode? then a + [0] else a[..|a| - 1] + [a[|a| - 1] + 1]
  }

  lemma StepsStart()
    ensures Steps([]) == StepAlong(Adjacent, [0]) == StepAlong(General, [0])
  {
  }

  lemma StepsUnfold(body: seq<Token>)
    requires body != []
    ensures var before, last := Steps(body[..|body| - 1]), body[|body| - 1];
      Steps(body) == if last.Simple? then before else StepAlong(last.c, before)
  {
    hide StepAlong;
  }

  lemma StepRelates(t: Tree, c: Combinator, a: Path)
    requires a != [] && IsElement(t, a)
    ensures Related(t, c, a, StepAlong(c, a))
  {
  }

  lemma FullPageStrays(groups: seq<seq<Token>>, positional: bool, g: nat)
    requires groups != [] && (forall k | 0 <= k < |groups| :: WellFormedGroup(groups[k]))
    requires Widens(groups, positional) && g < |groups| && !LedDown(groups[g])
    ensures var body := Body(groups[g]); Strays(FullPage(|body|), [0], groups, positional, Steps(body))
  {
    var body := Body(groups[g]);
    var pg, e := FullPage(|body|), Steps(body);
    FullPageElements(|body|, [0]);
    FullPageElements(|body|, e);
    StepsMean(|body|, Lead(groups[g]), body);
    SelectedMeans(pg, [0], groups[g], e);
    hide Selected, Means, Steps, FullPage, IsElement, Reports, WellFormed;
    assert SelectedByAny(pg, [0], groups, e);
    assert WellFormedGroup(groups[0]);
    XmlScope(pg, [0], groups, positional);
    WidensWhen(groups, positional);
    XmlReports(pg, [0], groups, positional, e);
    assert [0][..0] == [];
  }

  /** In XML documents `select` can report an element that is not below the context exactly when
      the text has a plus sign or tilde anywhere, also inside a filter, no type selector gives a
      seed, and some group is not led by ">" or white space. */
  lemma XmlStraysExactlyWhen(groups: seq<seq<Token>>, positional: bool)
    requires groups != [] && forall k | 0 <= k < |groups| :: WellFormedGroup(groups[k])
    ensures (exists pg, ctx, e :: Strays(pg, ctx, groups, positional, e)) <==>
      && (exists g, i :: 0 <= g < |groups| && 0 <= i < |groups[g]| && ('+' in groups[g][i].text || '~' in groups[g][i].text))
      && (|groups| > 1 || positional || (groups[0][0].Relative? && !groups[0][0].c.Descendant?)
          || !exists j :: 0 <= j < |groups[0]| && IsType(groups[0][j]) && forall k | j <= k < |groups[0]| :: groups[0][k].Simple?)
      && (exists g :: 0 <= g < |groups| && groups[g] != []
            && !(groups[g][0].Relative? && (groups[g][0].c.Child? || groups[g][0].c.Descendant?)))
  {
    WidensWhen(groups, positional);
    forall g | 0 <= g < |groups|
      ensures groups[g] != []
      ensures LedDown(groups[g]) <==> groups[g][0].Relative? && (groups[g][0].c.Child? || groups[g][0].c.Descendant?)
    {
      assert WellFormedGroup(groups[g]);
    }
    hide Strays, Widens, LedDown;
    if Widens(groups, positional) && !AllLedDown(groups) {
      var g :| 0 <= g < |groups| && !LedDown(groups[g]);
      FullPageStrays(groups, positional, g);
    } else {
      forall pg, ctx, e ensures !Strays(pg, ctx, groups, positional, e) {
        StaysBelow(pg, ctx, groups, positional, e);
      }
    }
  }

  /** The tilde of `[x~=y]` alone is enough. */
  lemma TildeInFilterStrays()
    ensures exists pg, ctx, e :: Strays(pg, ctx, [[Simple(ATTR, "x", "[x~=y]")]], false, e)
  {
    var ts := [Simple(ATTR, "x", "[x~=y]")];
    assert ts[0].text[2] == '~' && WellFormedToken(ts[0]);
    assert MentionsSibling([ts][0]) && !TypeInLast(ts, 1) && !LedDown([ts][0]);
    XmlStraysExactlyWhen([ts], false);
  }
}
