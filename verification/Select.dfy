/** `select`: seeds the candidates from one simple selector when it can, drops that
    token, and filters by the compiled rest. */
module Select {
  import opened Optional
  import opened Dom
  import opened Lists
  import opened Sorting
  import opened Selectors
  import opened Matching
  import opened Selecting

  // ---- The browser's own searches ----

  /** `getElementsByTagName("*")`: the elements below `top` in document order. */
  function Elements(pg: Page, top: Path): seq<Path> {
    Filter(Preorder(pg.tree), p => IsAncestor(top, p) && IsElement(pg.tree, p))
  }

  function ElementsWith(pg: Page, top: Path, kind: FilterType, arg: string): seq<Path> {
    Filter(Elements(pg, top), p => pg.sat(kind, arg, p))
  }

  /** `Expr.find`: absent for a type, or unusable at a context, means no seed.
      `getElementById` exists on the document only and yields its first match. */
  function Find(pg: Page, kind: FilterType, arg: string, top: Path): Option<seq<Path>> {
    match kind
    case TAG => Some(ElementsWith(pg, top, TAG, arg))
    case CLASS => if pg.classFind && pg.html then Some(ElementsWith(pg, top, CLASS, arg)) else None
    case ID =>
      if pg.idFind && pg.html && top == [] then
        var all := ElementsWith(pg, top, ID, arg);
        Some(if all == [] then [] else [all[0]])
      else None
    case ATTR => None
    case CHILD => None
    case PSEUDO => None
  }

  ghost predicate UniqueId(pg: Page, arg: string) {
    forall a, b | IsElement(pg.tree, a) && IsElement(pg.tree, b) && pg.sat(ID, arg, a) && pg.sat(ID, arg, b) :: a == b
  }

  /** The first element with an ID: what `getElementById` returns. */
  ghost predicate IsFirstWith(pg: Page, arg: string, e: Path) {
    && IsElement(pg.tree, e) && pg.sat(ID, arg, e)
    && forall p | IsElement(pg.tree, p) && pg.sat(ID, arg, p) :: p == e || Before(e, p)
  }

  lemma ElementsAre(pg: Page, top: Path)
    ensures Increasing(Elements(pg, top))
    ensures forall p :: p in Elements(pg, top) <==> IsAncestor(top, p) && IsElement(pg.tree, p)
  {
    var keep := p => IsAncestor(top, p) && IsElement(pg.tree, p);
    PreorderIncreasing(pg.tree);
    FilterIncreasing(Preorder(pg.tree), keep);
    forall p ensures p in Elements(pg, top) <==> IsAncestor(top, p) && IsElement(pg.tree, p) {
      FilterMembers(Preorder(pg.tree), keep, p);
      PreorderMembers(pg.tree, p);
      if IsElement(pg.tree, p) {
        ElementIsValid(pg.tree, p);
      }
    }
  }

  /** A search lists, in document order, the elements below `top` that pass the filter; for an
      ID only the first of them. */
  lemma FindIsExact(pg: Page, kind: FilterType, arg: string, top: Path)
    requires WellFormed(pg.tree) && Find(pg, kind, arg, top).Some?
    ensures Increasing(Find(pg, kind, arg, top).value)
    ensures forall p :: p in Find(pg, kind, arg, top).value <==>
              && IsAncestor(top, p) && IsElement(pg.tree, p) && pg.sat(kind, arg, p)
              && (kind == ID ==> IsFirstWith(pg, arg, p))
  {
    var keep := p => pg.sat(kind, arg, p);
    var all := ElementsWith(pg, top, kind, arg);
    ElementsAre(pg, top);
    FilterIncreasing(Elements(pg, top), keep);
    forall p ensures p in all <==> IsAncestor(top, p) && IsElement(pg.tree, p) && pg.sat(kind, arg, p) {
      FilterMembers(Elements(pg, top), keep, p);
    }
    if kind == ID {
      FirstIsFirst(pg, arg, all);
    }
  }

  lemma FirstIsFirst(pg: Page, arg: string, all: seq<Path>)
    requires WellFormed(pg.tree) && Increasing(all)
    requires forall p :: p in all <==> IsAncestor([], p) && IsElement(pg.tree, p) && pg.sat(ID, arg, p)
    ensures forall p :: p in (if all == [] then [] else [all[0]]) <==> IsFirstWith(pg, arg, p)
  {
    forall p | IsFirstWith(pg, arg, p)
      ensures all != [] && p == all[0]
    {
      assert IsAncestor([], p) && p in all;
      BeforeTotal(p, all[0]);
    }
    if all != [] {
      assert all[0] in all;
      forall p | IsElement(pg.tree, p) && pg.sat(ID, arg, p)
        ensures p == all[0] || Before(all[0], p)
      {
        assert IsAncestor([], p) && p in all;
      }
    }
  }

  // ---- select ----

  /** `rsibling.test( selector )` */
  predicate MentionsSibling(ts: seq<Token>) {
    exists i :: 0 <= i < |ts| && ('+' in ts[i].text || '~' in ts[i].text)
  }

  predicate AnyMentionsSibling(groups: seq<seq<Token>>) {
    exists g :: 0 <= g < |groups| && MentionsSibling(groups[g])
  }

  /** `matchExpr["needsContext"]` finds a leading ">", "+" or "~"; `positional` tells
      whether its other half finds the text of a positional filter anywhere. */
  predicate NeedsContext(ts: seq<Token>, positional: bool) {
    positional || (ts != [] && ts[0].Relative? && !ts[0].c.Descendant?)
  }

  /** The token the seed is taken from, searching backwards from `i` in the last compound. */
  function SeedIndex(pg: Page, ctx: Path, ts: seq<Token>, i: nat): (at: Option<nat>)
    requires i <= |ts|
    ensures at.Some? ==> at.value < i && forall k | at.value <= k < i :: ts[k].Simple?
    ensures at.Some? ==> Find(pg, ts[at.value].kind, ts[at.value].arg, ctx).Some?
  {
    if i == 0 || ts[i - 1].Relative? then None
    else if Find(pg, ts[i - 1].kind, ts[i - 1].arg, ctx).Some? then Some(i - 1)
    else SeedIndex(pg, ctx, ts, i - 1)
  }

  /** `expandContext && context.parentNode || context` */
  function Expanded(expand: bool, ctx: Path): Path {
    if expand && ctx != [] then ctx[..|ctx| - 1] else ctx
  }

  /** The node below which candidates are drawn. */
  function Scope(pg: Page, ctx: Path, groups: seq<seq<Token>>, positional: bool): Path {
    if |groups| == 1 && !NeedsContext(groups[0], positional) && SeedIndex(pg, ctx, groups[0], |groups[0]|).Some?
    then ctx
    else Expanded(AnyMentionsSibling(groups), ctx)
  }

  ghost predicate WellFormedCall(pg: Page, ctx: Path, groups: seq<seq<Token>>) {
    && WellFormed(pg.tree)
    && (ctx == [] || IsElement(pg.tree, ctx))
    && groups != []
    && forall g | 0 <= g < |groups| :: WellFormedGroup(groups[g])
  }

  predicate WellFormedGroup(ts: seq<Token>) {
    ts != [] && forall i | 0 <= i < |ts| :: WellFormedToken(ts[i])
  }

  /** The ID that the seed is searched by, if it is searched by an ID. */
  function SeedId(pg: Page, ctx: Path, ts: seq<Token>, positional: bool): Option<string> {
    var at := SeedIndex(pg, ctx, ts, |ts|);
    if !NeedsContext(ts, positional) && at.Some? && ts[at.value].kind == ID then Some(ts[at.value].arg) else None
  }

  /** What `select` reports for one group: the selected elements in scope, and of those with the
      ID of the seed only the first. */
  ghost predicate GroupReports(pg: Page, ctx: Path, ts: seq<Token>, positional: bool, e: Path) {
    && Selected(pg, ctx, ts, e)
    && (pg.html || IsAncestor(Scope(pg, ctx, [ts], positional), e))
    && (SeedId(pg, ctx, ts, positional).Some? ==> IsFirstWith(pg, SeedId(pg, ctx, ts, positional).value, e))
  }

  /** What `select` reports.  A leading ID stands for the first element with it. */
  ghost predicate Reports(pg: Page, ctx: Path, groups: seq<seq<Token>>, positional: bool, e: Path) {
    if |groups| != 1 then
      SelectedByAny(pg, ctx, groups, e) && (pg.html || IsAncestor(Scope(pg, ctx, groups, positional), e))
    else if StartsWithId(pg, ctx, groups[0]) then
      exists top :: IsFirstWith(pg, groups[0][0].arg, top) && GroupReports(pg, top, groups[0][1..], positional, e)
    else GroupReports(pg, ctx, groups[0], positional, e)
  }

  /** `out` is `results` followed, in document order and once each, by what one group reports. */
  ghost predicate AppendsGroup(pg: Page, ctx: Path, ts: seq<Token>, positional: bool, results: seq<Path>, out: seq<Path>) {
    && results <= out && Increasing(out[|results|..])
    && forall e :: e in out[|results|..] <==> GroupReports(pg, ctx, ts, positional, e)
  }

  /** ... by what `select` reports. */
  ghost predicate AppendsReports(pg: Page, ctx: Path, groups: seq<seq<Token>>, positional: bool,
                                 results: seq<Path>, out: seq<Path>)
  {
    && results <= out && Increasing(out[|results|..])
    && forall e :: e in out[|results|..] <==> Reports(pg, ctx, groups, positional, e)
  }

  /** ... by all selected elements in scope. */
  ghost predicate AppendsSelected(pg: Page, ctx: Path, groups: seq<seq<Token>>, scope: Path, results: seq<Path>, out: seq<Path>) {
    && results <= out && Increasing(out[|results|..])
    && forall e :: e in out[|results|..] <==>
         SelectedByAny(pg, ctx, groups, e) && (pg.html || IsAncestor(scope, e))
  }

  /** The IDs that `select` searches by belong to one element each. */
  ghost predicate SearchedIdsUnique(pg: Page, ctx: Path, groups: seq<seq<Token>>, positional: bool) {
    |groups| == 1 ==>
      if StartsWithId(pg, ctx, groups[0]) then UniqueId(pg, groups[0][0].arg)
      else
        SeedId(pg, ctx, groups[0], positional).Some? ==> UniqueId(pg, SeedId(pg, ctx, groups[0], positional).value)
  }

  // ---- Selected elements lie where candidates are drawn ----

  lemma AnchoredIsInScope(pg: Page, ctx: Path, lead: Option<Combinator>, expand: bool, n: Path)
    requires pg.html && Anchored(pg, ctx, lead, n)
    requires lead.Some? && !lead.value.Dir().ParentNode? ==> expand
    ensures IsAncestor(Expanded(expand, ctx), n)
  {
    if expand && ctx != [] {
      var up := ctx[..|ctx| - 1];
      match lead {
        case None => assert n[..|up|] == n[..|ctx|][..|up|];
        case Some(c) =>
          match c
          case Child => assert n[..|up|] == n[..|n| - 1][..|up|];
          case Descendant => assert n[..|up|] == n[..|ctx|][..|up|];
          case Adjacent =>
          case General =>
      }
    }
  }

  /** In an HTML document nothing outside the scope is selected. */
  lemma SelectedIsInScope(pg: Page, ctx: Path, ts: seq<Token>, expand: bool, e: Path)
    requires pg.html && Selected(pg, ctx, ts, e)
    requires Lead(ts).Some? && !Lead(ts).value.Dir().ParentNode? ==> expand
    ensures IsAncestor(Expanded(expand, ctx), e)
  {
    SelectedMeans(pg, ctx, ts, e);
    forall n | Anchored(pg, ctx, Lead(ts), n) ensures IsAncestor(Expanded(expand, ctx), n) {
      AnchoredIsInScope(pg, ctx, Lead(ts), expand, n);
    }
    MeansStaysBelow(pg, ctx, Lead(ts), Body(ts), Expanded(expand, ctx), e);
  }

  lemma LeadingSiblingIsMentioned(groups: seq<seq<Token>>, g: nat)
    requires g < |groups| && WellFormedGroup(groups[g])
    requires Lead(groups[g]).Some? && !Lead(groups[g]).value.Dir().ParentNode?
    ensures AnyMentionsSibling(groups)
  {
    assert WellFormedToken(groups[g][0]);
    assert MentionsSibling(groups[g]);
  }

  // ---- The two ways a run ends ----

  /** Filtering all elements below the scope. */
  lemma UnseededRun(pg: Page, ctx: Path, groups: seq<seq<Token>>, ms: seq<Matcher>, results: seq<Path>, out: seq<Path>)
    requires WellFormedCall(pg, ctx, groups) && |ms| == |groups|
    requires forall k | 0 <= k < |groups| :: IsCompiled(ms[k], groups[|groups| - 1 - k])
    requires out == results + Filter(Elements(pg, Expanded(AnyMentionsSibling(groups), ctx)), e => AnyHolds(pg, ctx, ms, e))
    ensures AppendsSelected(pg, ctx, groups, Expanded(AnyMentionsSibling(groups), ctx), results, out)
  {
    var expand := AnyMentionsSibling(groups);
    var scope := Expanded(expand, ctx);
    var keep := e => AnyHolds(pg, ctx, ms, e);
    ElementsAre(pg, scope);
    FilterIncreasing(Elements(pg, scope), keep);
    assert out[|results|..] == Filter(Elements(pg, scope), keep);
    forall e ensures e in out[|results|..] <==> SelectedByAny(pg, ctx, groups, e) && (pg.html || IsAncestor(scope, e)) {
      FilterMembers(Elements(pg, scope), keep, e);
      if IsElement(pg.tree, e) {
        CompiledGroupsMean(pg, ctx, groups, ms, e);
      }
      if pg.html && SelectedByAny(pg, ctx, groups, e) {
        var g :| 0 <= g < |groups| && Selected(pg, ctx, groups[g], e);
        if Lead(groups[g]).Some? && !Lead(groups[g]).value.Dir().ParentNode? {
          LeadingSiblingIsMentioned(groups, g);
        }
        SelectedIsInScope(pg, ctx, groups[g], expand, e);
      }
    }
  }

  /** The tokens without the one the seed came from. */
  function WithoutToken(ts: seq<Token>, i: nat): seq<Token>
    requires i < |ts|
  {
    ts[..i] + ts[i + 1..]
  }

  ghost predicate Seeds(pg: Page, ctx: Path, ts: seq<Token>, i: nat, seed: seq<Path>) {
    && i < |ts| && (forall k | i <= k < |ts| :: ts[k].Simple?)
    && Increasing(seed)
    && forall p :: p in seed <==>
         && IsAncestor(ctx, p) && IsElement(pg.tree, p) && Satisfies(pg, ts[i], p)
         && (ts[i].kind == ID ==> IsFirstWith(pg, ts[i].arg, p))
  }

  /** Selected, below the context, and the first with the ID if the seed is searched by one. */
  ghost predicate SelectedFromSeed(pg: Page, ctx: Path, ts: seq<Token>, i: nat, e: Path)
    requires i < |ts| && ts[i].Simple?
  {
    && Selected(pg, ctx, ts, e) && (pg.html || IsAncestor(ctx, e))
    && (ts[i].kind == ID ==> IsFirstWith(pg, ts[i].arg, e))
  }

  /** A selected element is a seed that the remaining tokens select, and conversely. */
  lemma SeedSplitsMeaning(pg: Page, ctx: Path, ts: seq<Token>, i: nat, seed: seq<Path>, e: Path)
    requires Seeds(pg, ctx, ts, i, seed) && !NeedsContext(ts, false)
    ensures SelectedFromSeed(pg, ctx, ts, i, e) <==>
            e in seed && Means(pg, ctx, Lead(WithoutToken(ts, i)), Body(WithoutToken(ts, i)), e)
  {
    hide Means, Selected, IsElement, IsFirstWith, IsAncestor;
    var rest := WithoutToken(ts, i);
    var skip := |ts| - |Body(ts)|;
    assert Lead(rest) == Lead(ts) && Body(rest) == Body(ts)[..i - skip] + Body(ts)[i - skip + 1..];
    SelectedMeans(pg, ctx, ts, e);
    DropFilter(pg, ctx, Lead(ts), Body(ts), i - skip, e);
    assert Body(ts)[i - skip] == ts[i];
    if pg.html && Selected(pg, ctx, ts, e) {
      SelectedIsInScope(pg, ctx, ts, false, e);
    }
  }

  ghost predicate AppendsFromSeed(pg: Page, ctx: Path, ts: seq<Token>, i: nat, results: seq<Path>, out: seq<Path>)
    requires i < |ts| && ts[i].Simple?
  {
    && results <= out && Increasing(out[|results|..])
    && forall e :: e in out[|results|..] <==> SelectedFromSeed(pg, ctx, ts, i, e)
  }

  /** Filtering the seed by the compiled rest. */
  lemma SeededRun(pg: Page, ctx: Path, ts: seq<Token>, i: nat, seed: seq<Path>, ms: seq<Matcher>,
                  results: seq<Path>, out: seq<Path>)
    requires WellFormedCall(pg, ctx, [ts]) && Seeds(pg, ctx, ts, i, seed) && !NeedsContext(ts, false)
    requires |ms| == 1 && WithoutToken(ts, i) != [] && IsCompiled(ms[0], WithoutToken(ts, i))
    requires out == results + Filter(seed, e => AnyHolds(pg, ctx, ms, e))
    ensures AppendsFromSeed(pg, ctx, ts, i, results, out)
  {
    hide SelectedFromSeed, Means, Holds, IsElement;
    var keep := e => AnyHolds(pg, ctx, ms, e);
    FilterIncreasing(seed, keep);
    assert out[|results|..] == Filter(seed, keep);
    var rest := WithoutToken(ts, i);
    forall e ensures e in out[|results|..] <==> SelectedFromSeed(pg, ctx, ts, i, e) {
      FilterMembers(seed, keep, e);
      SeedSplitsMeaning(pg, ctx, ts, i, seed, e);
      if e in seed {
        var first :| ms[0] == Compiled(rest, first);
        CompiledMeans(pg, ctx, Lead(rest), Body(rest), first, e);
        assert keep(e) <==> Holds(pg, ctx, ms[0], e);
      }
    }
  }

  /** No run is needed when the seed is empty or no token is left. */
  lemma SeedAlone(pg: Page, ctx: Path, ts: seq<Token>, i: nat, seed: seq<Path>, results: seq<Path>)
    requires WellFormedCall(pg, ctx, [ts]) && Seeds(pg, ctx, ts, i, seed) && !NeedsContext(ts, false)
    requires seed == [] || WithoutToken(ts, i) == []
    ensures AppendsFromSeed(pg, ctx, ts, i, results, results + seed)
  {
    assert (results + seed)[|results|..] == seed;
    forall e ensures e in seed <==> SelectedFromSeed(pg, ctx, ts, i, e) {
      SeedSplitsMeaning(pg, ctx, ts, i, seed, e);
    }
  }

  // ---- The shortcut for a leading ID ----

  predicate StartsWithId(pg: Page, ctx: Path, ts: seq<Token>) {
    && |ts| > 2 && ts[0].Simple? && ts[0].kind == ID && pg.idFind && ctx == [] && pg.html
    && ts[1].Relative?
  }

  /** A leading ID means: under some element with the ID, the rest of the selector. */
  ghost predicate MeansUnderId(pg: Page, ts: seq<Token>, k: nat, e: Path)
    requires StartsWithId(pg, [], ts) && 2 <= k <= |ts|
  {
    exists top :: IsElement(pg.tree, top) && Satisfies(pg, ts[0], top) && Means(pg, top, Some(ts[1].c), ts[2..k], e)
  }

  lemma {:induction false} IdShortcutMeans(pg: Page, ts: seq<Token>, k: nat, e: Path)
    requires StartsWithId(pg, [], ts) && !pg.tree.element && 2 <= k <= |ts|
    ensures Means(pg, [], None, ts[..k], e) <==> MeansUnderId(pg, ts, k, e)
    decreases k
  {
    if k == 2 {
      IdAndCombinator(pg, ts, e);
    } else {
      var j := k - 1;
      IdThenStep(pg, ts, j);
      if ts[j].Simple? {
        IdShortcutMeans(pg, ts, j, e);
        assert MeansUnderId(pg, ts, k, e) <==> Satisfies(pg, ts[j], e) && MeansUnderId(pg, ts, j, e);
      } else {
        forall a ensures Means(pg, [], None, ts[..j], a) <==> MeansUnderId(pg, ts, j, a) {
          IdShortcutMeans(pg, ts, j, a);
        }
        IdThenCombinator(pg, ts, j, e);
      }
    }
  }

  lemma IdAndCombinator(pg: Page, ts: seq<Token>, e: Path)
    requires StartsWithId(pg, [], ts) && !pg.tree.element
    ensures Means(pg, [], None, ts[..2], e) <==> MeansUnderId(pg, ts, 2, e)
  {
    assert ts[..2][..1] == [ts[0]] && ts[..2][1] == ts[1] && [ts[0]][..0] == [] && ts[2..2] == [];
    forall a | IsElement(pg.tree, a)
      ensures Means(pg, [], None, [ts[0]], a) <==> Satisfies(pg, ts[0], a)
      ensures Means(pg, a, Some(ts[1].c), ts[2..2], e) <==> Related(pg.tree, ts[1].c, a, e)
    {
    }
  }

  lemma IdThenStep(pg: Page, ts: seq<Token>, j: nat)
    requires 2 <= j < |ts|
    ensures var long, rest := ts[..j + 1], ts[2..j + 1];
      && long != [] && long[..|long| - 1] == ts[..j] && long[|long| - 1] == ts[j]
      && rest != [] && rest[..|rest| - 1] == ts[2..j] && rest[|rest| - 1] == ts[j]
  {
  }

  /** The two choices, of the element before and of the one with the ID, can be swapped. */
  lemma IdThenCombinator(pg: Page, ts: seq<Token>, j: nat, e: Path)
    requires StartsWithId(pg, [], ts) && 2 <= j < |ts| && ts[j].Relative?
    requires forall a :: Means(pg, [], None, ts[..j], a) <==> MeansUnderId(pg, ts, j, a)
    ensures Means(pg, [], None, ts[..j + 1], e) <==> MeansUnderId(pg, ts, j + 1, e)
  {
    IdThenStep(pg, ts, j);
    var t, c := pg.tree, ts[1].c;
    if Means(pg, [], None, ts[..j + 1], e) {
      var a :| IsElement(t, a) && Related(t, ts[j].c, a, e) && Means(pg, [], None, ts[..j], a);
      var top :| IsElement(t, top) && Satisfies(pg, ts[0], top) && Means(pg, top, Some(c), ts[2..j], a);
      assert Means(pg, top, Some(c), ts[2..j + 1], e);
    }
    if MeansUnderId(pg, ts, j + 1, e) {
      var top :| IsElement(t, top) && Satisfies(pg, ts[0], top) && Means(pg, top, Some(c), ts[2..j + 1], e);
      var a :| IsElement(t, a) && Related(t, ts[j].c, a, e) && Means(pg, top, Some(c), ts[2..j], a);
      assert MeansUnderId(pg, ts, j, a);
    }
  }

  /** A selector with a leading ID selects what its rest selects under some element with the ID. */
  lemma IdShortcutSelects(pg: Page, ts: seq<Token>, e: Path)
    requires StartsWithId(pg, [], ts) && !pg.tree.element
    ensures Selected(pg, [], ts, e) <==>
            exists top :: IsElement(pg.tree, top) && Satisfies(pg, ts[0], top) && Selected(pg, top, ts[1..], e)
  {
    SelectedMeans(pg, [], ts, e);
    assert ts[..|ts|] == ts && ts[2..|ts|] == ts[1..][1..];
    IdShortcutMeans(pg, ts, |ts|, e);
    forall top ensures Selected(pg, top, ts[1..], e) <==> IsElement(pg.tree, e) && Means(pg, top, Some(ts[1].c), ts[2..|ts|], e) {
      SelectedMeans(pg, top, ts[1..], e);
    }
  }

  // ---- What is reported and what is selected ----

  lemma RootIsNoElement(pg: Page)
    requires WellFormed(pg.tree)
    ensures forall p | IsElement(pg.tree, p) :: IsAncestor([], p)
  {
  }

  lemma FirstFound(pg: Page, arg: string)
    requires WellFormed(pg.tree) && Find(pg, ID, arg, []).Some?
    ensures var found := Find(pg, ID, arg, []).value;
      |found| <= 1 && forall p :: p in found <==> IsFirstWith(pg, arg, p)
  {
    FindIsExact(pg, ID, arg, []);
    RootIsNoElement(pg);
  }

  lemma AfterShortcut(pg: Page, ts: seq<Token>, top: Path)
    requires WellFormedCall(pg, [], [ts]) && StartsWithId(pg, [], ts) && IsFirstWith(pg, ts[0].arg, top)
    ensures WellFormedCall(pg, top, [ts[1..]])
  {
    assert WellFormedGroup([ts][0]);
  }

  /** What is reported under the element found by the leading ID is what is reported. */
  lemma ShortcutReports(pg: Page, ts: seq<Token>, positional: bool, found: seq<Path>, results: seq<Path>, out: seq<Path>)
    requires StartsWithId(pg, [], ts) && |found| <= 1
    requires forall p :: p in found <==> IsFirstWith(pg, ts[0].arg, p)
    requires if found == [] then out == results else AppendsGroup(pg, found[0], ts[1..], positional, results, out)
    ensures AppendsReports(pg, [], [ts], positional, results, out)
  {
    hide GroupReports, IsFirstWith;
    if found == [] {
      assert out[|results|..] == [];
      assert forall p :: !IsFirstWith(pg, ts[0].arg, p);
    } else {
      assert found[0] in found;
      assert forall p | IsFirstWith(pg, ts[0].arg, p) :: p == found[0];
    }
  }

  lemma SelectedSatisfies(pg: Page, ctx: Path, ts: seq<Token>, i: nat, e: Path)
    requires i < |ts| && (forall k | i <= k < |ts| :: ts[k].Simple?) && Selected(pg, ctx, ts, e)
    ensures IsElement(pg.tree, e) && Satisfies(pg, ts[i], e)
  {
    hide Selected, Means, IsElement;
    var skip := |ts| - |Body(ts)|;
    SelectedMeans(pg, ctx, ts, e);
    DropFilter(pg, ctx, Lead(ts), Body(ts), i - skip, e);
    assert Body(ts)[i - skip] == ts[i];
  }

  lemma UniqueIsFirst(pg: Page, arg: string, e: Path)
    requires UniqueId(pg, arg) && IsElement(pg.tree, e) && pg.sat(ID, arg, e)
    ensures IsFirstWith(pg, arg, e)
  {
  }

  lemma GroupReportsSelected(pg: Page, ctx: Path, ts: seq<Token>, positional: bool, e: Path)
    requires SeedId(pg, ctx, ts, positional).Some? ==> UniqueId(pg, SeedId(pg, ctx, ts, positional).value)
    ensures GroupReports(pg, ctx, ts, positional, e) <==>
            Selected(pg, ctx, ts, e) && (pg.html || IsAncestor(Scope(pg, ctx, [ts], positional), e))
  {
    hide Selected, Scope, IsFirstWith;
    var id := SeedId(pg, ctx, ts, positional);
    if id.Some? && Selected(pg, ctx, ts, e) {
      SelectedSatisfies(pg, ctx, ts, SeedIndex(pg, ctx, ts, |ts|).value, e);
      UniqueIsFirst(pg, id.value, e);
    }
  }

  lemma OneGroup(pg: Page, ctx: Path, ts: seq<Token>, e: Path)
    ensures SelectedByAny(pg, ctx, [ts], e) <==> Selected(pg, ctx, ts, e)
  {
    assert SelectedByAny(pg, ctx, [ts], e) <==> Selected(pg, ctx, [ts][0], e);
  }

  /** No ID is searched for at an element. */
  lemma NoIdAtElement(pg: Page, top: Path, ts: seq<Token>, positional: bool)
    requires top != []
    ensures SeedId(pg, top, ts, positional).None?
  {
  }

  lemma ShortcutReportsSelected(pg: Page, ts: seq<Token>, positional: bool, e: Path)
    requires WellFormed(pg.tree) && StartsWithId(pg, [], ts) && UniqueId(pg, ts[0].arg)
    ensures Reports(pg, [], [ts], positional, e) <==> Selected(pg, [], ts, e)
  {
    hide Selected, Scope, SeedId;
    RootIsNoElement(pg);
    IdShortcutSelects(pg, ts, e);
    forall top ensures IsFirstWith(pg, ts[0].arg, top) <==> IsElement(pg.tree, top) && Satisfies(pg, ts[0], top) {
    }
    forall top | IsElement(pg.tree, top)
      ensures GroupReports(pg, top, ts[1..], positional, e) <==> Selected(pg, top, ts[1..], e)
    {
      NoIdAtElement(pg, top, ts[1..], positional);
    }
  }

  lemma ReportsSelected(pg: Page, ctx: Path, groups: seq<seq<Token>>, positional: bool, e: Path)
    requires WellFormedCall(pg, ctx, groups) && SearchedIdsUnique(pg, ctx, groups, positional)
    ensures Reports(pg, ctx, groups, positional, e) <==>
            SelectedByAny(pg, ctx, groups, e) && (pg.html || IsAncestor(Scope(pg, ctx, groups, positional), e))
  {
    hide Selected, Scope, SelectedByAny, GroupReports, UniqueId, IsFirstWith;
    if |groups| == 1 {
      var ts := groups[0];
      assert groups == [ts];
      OneGroup(pg, ctx, ts, e);
      if StartsWithId(pg, ctx, ts) {
        ShortcutReportsSelected(pg, ts, positional, e);
      } else {
        GroupReportsSelected(pg, ctx, ts, positional, e);
      }
    }
  }

  /** `compile( selector, match )( seed, context, ... )` */
  method CompileAndRun(z: Engine, pg: Page, ctx: Path, groups: seq<seq<Token>>, elems: seq<Path>, results: seq<Path>)
    returns (out: seq<Path>, ghost ms: seq<Matcher>)
    requires forall k | 0 <= k < |groups| :: groups[k] != []
    requires UpToRun(z.cache, z.dirruns)
    modifies z
    ensures |ms| == |groups|
    ensures forall k | 0 <= k < |groups| :: IsCompiled(ms[k], groups[|groups| - 1 - k])
    ensures out == results + Filter(elems, e => AnyHolds(pg, ctx, ms, e))
    ensures UpToRun(z.cache, z.dirruns)
  {
    var sm := Compile(z, groups);
    ms := sm.elementMatchers;
    out := sm.Run(z, pg, ctx, elems, results);
  }

  /** `select` without an initial seed: it reports what it is specified to, and that is all
      selected elements unless it searches by an ID that several elements share. */
  method Select(z: Engine, pg: Page, ctx: Path, groups: seq<seq<Token>>, positional: bool, results: seq<Path>)
    returns (out: seq<Path>)
    requires WellFormedCall(pg, ctx, groups)
    requires UpToRun(z.cache, z.dirruns)
    modifies z
    ensures AppendsReports(pg, ctx, groups, positional, results, out)
    ensures SearchedIdsUnique(pg, ctx, groups, positional) ==>
              AppendsSelected(pg, ctx, groups, Scope(pg, ctx, groups, positional), results, out)
    ensures UpToRun(z.cache, z.dirruns)
  {
    hide SelectedByAny, Selected, IsElement, WellFormed, UpToRun, IsFirstWith, GroupReports, ElementsWith;
    if |groups| == 1 {
      var ts := groups[0];
      assert groups == [ts];
      if StartsWithId(pg, ctx, ts) {
        var found := Find(pg, ID, ts[0].arg, ctx).value;
        FirstFound(pg, ts[0].arg);
        if found == [] {
          out := results;
        } else {
          assert found[0] in found;
          AfterShortcut(pg, ts, found[0]);
          out := SelectGroup(z, pg, found[0], ts[1..], positional, results);
        }
        ShortcutReports(pg, ts, positional, found, results, out);
      } else {
        out := SelectGroup(z, pg, ctx, ts, positional, results);
      }
    } else {
      ghost var ms;
      out, ms := CompileAndRun(z, pg, ctx, groups, Elements(pg, Expanded(AnyMentionsSibling(groups), ctx)), results);
      UnseededRun(pg, ctx, groups, ms, results, out);
    }
    forall e | SearchedIdsUnique(pg, ctx, groups, positional)
      ensures Reports(pg, ctx, groups, positional, e) <==>
              SelectedByAny(pg, ctx, groups, e) && (pg.html || IsAncestor(Scope(pg, ctx, groups, positional), e))
    {
      ReportsSelected(pg, ctx, groups, positional, e);
    }
  }

  /** The loop that fetches a seed set, from the last token backwards to a combinator. */
  method FetchSeed(pg: Page, ctx: Path, ts: seq<Token>, positional: bool) returns (at: Option<nat>, seed: seq<Path>)
    requires WellFormed(pg.tree)
    ensures at == if NeedsContext(ts, positional) then None else SeedIndex(pg, ctx, ts, |ts|)
    ensures at.Some? ==> Seeds(pg, ctx, ts, at.value, seed)
  {
    var i := if NeedsContext(ts, positional) then 0 else |ts|;
    ghost var start := i;
    while i > 0
      invariant 0 <= i <= start
      invariant forall k | i <= k < start :: ts[k].Simple?
      invariant SeedIndex(pg, ctx, ts, i) == SeedIndex(pg, ctx, ts, start)
    {
      i := i - 1;
      var token := ts[i];
      if token.Relative? {
        break;
      }
      var found := Find(pg, token.kind, token.arg, ctx);
      if found.Some? {
        FindIsExact(pg, token.kind, token.arg, ctx);
        return Some(i), found.value;
      }
    }
    return None, [];
  }

  lemma SeededGroup(pg: Page, ctx: Path, ts: seq<Token>, positional: bool, results: seq<Path>, out: seq<Path>)
    requires !NeedsContext(ts, positional) && SeedIndex(pg, ctx, ts, |ts|).Some?
    requires AppendsFromSeed(pg, ctx, ts, SeedIndex(pg, ctx, ts, |ts|).value, results, out)
    ensures AppendsGroup(pg, ctx, ts, positional, results, out)
  {
    hide Selected, IsFirstWith, SeedIndex;
    assert Scope(pg, ctx, [ts], positional) == ctx;
  }

  lemma UnseededGroup(pg: Page, ctx: Path, ts: seq<Token>, positional: bool, results: seq<Path>, out: seq<Path>)
    requires NeedsContext(ts, positional) || SeedIndex(pg, ctx, ts, |ts|).None?
    requires AppendsSelected(pg, ctx, [ts], Expanded(AnyMentionsSibling([ts]), ctx), results, out)
    ensures AppendsGroup(pg, ctx, ts, positional, results, out)
  {
    hide Selected, IsFirstWith, SeedIndex;
    forall e ensures SelectedByAny(pg, ctx, [ts], e) <==> Selected(pg, ctx, ts, e) {
      OneGroup(pg, ctx, ts, e);
    }
  }

  /** The rest of `select`, for one group. */
  method SelectGroup(z: Engine, pg: Page, ctx: Path, ts: seq<Token>, positional: bool, results: seq<Path>)
    returns (out: seq<Path>)
    requires WellFormedCall(pg, ctx, [ts])
    requires UpToRun(z.cache, z.dirruns)
    modifies z
    ensures AppendsGroup(pg, ctx, ts, positional, results, out)
    ensures UpToRun(z.cache, z.dirruns)
  {
    hide Selected, IsElement, WellFormed, UpToRun, IsFirstWith, Find, AppendsGroup, AppendsFromSeed, AppendsSelected;
    hide SeedIndex, GroupReports, SelectedFromSeed;
    var at, seed := FetchSeed(pg, ctx, ts, positional);
    ghost var ms;
    if at.Some? {
      // an empty selector: no seed was found, or no token is left
      if seed == [] || WithoutToken(ts, at.value) == [] {
        SeedAlone(pg, ctx, ts, at.value, seed, results);
        out := results + seed;
      } else {
        out, ms := CompileAndRun(z, pg, ctx, [WithoutToken(ts, at.value)], seed, results);
        SeededRun(pg, ctx, ts, at.value, seed, ms, results, out);
      }
      SeededGroup(pg, ctx, ts, positional, results, out);
    } else {
      out, ms := CompileAndRun(z, pg, ctx, [ts], Elements(pg, Expanded(AnyMentionsSibling([ts]), ctx)), results);
      UnseededRun(pg, ctx, [ts], ms, results, out);
      UnseededGroup(pg, ctx, ts, positional, results, out);
    }
  }
}
