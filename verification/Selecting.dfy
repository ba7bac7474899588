/** Sizzle's compiler from tokens to matchers, what the compiled matchers mean, and the run of
    a compiled selector over candidate elements. */
module Selecting {
  import opened Optional
  import opened Dom
  import opened Lists
  import opened Selectors
  import opened Matching

  // ---- Walking a direction and standing in a relation are the same ----

  lemma {:induction false} AncestorReached(pg: Page, ctx: Path, inner: Matcher, base: bool, e: Path)
    ensures Reaches(pg, ctx, inner, Descendant, base, e) <==>
            exists k :: 0 <= k < |e| && Eligible(pg, Descendant, base, e[..k]) && Holds(pg, ctx, inner, e[..k])
    decreases |e|
  {
    if e != [] {
      var n := e[..|e| - 1];
      AncestorReached(pg, ctx, inner, base, n);
      assert forall k | 0 <= k < |n| :: n[..k] == e[..k];
    }
  }

  lemma {:induction false} ParentReached(pg: Page, ctx: Path, inner: Matcher, base: bool, e: Path)
    requires WellFormed(pg.tree) && Valid(pg.tree, e)
    ensures Reaches(pg, ctx, inner, Child, base, e) <==>
            e != [] && Eligible(pg, Child, base, e[..|e| - 1]) && Holds(pg, ctx, inner, e[..|e| - 1])
  {
    if |e| > 1 {
      ParentIsElement(pg.tree, e);
    }
  }

  function Nth(p: Path, j: nat): Path
    requires p != []
  {
    p[..|p| - 1] + [j]
  }

  lemma {:induction false} SiblingReached(pg: Page, ctx: Path, inner: Matcher, base: bool, e: Path)
    ensures Reaches(pg, ctx, inner, General, base, e) <==>
            e != [] && exists j: nat :: j < e[|e| - 1] && IsElement(pg.tree, Nth(e, j)) && Holds(pg, ctx, inner, Nth(e, j))
    decreases Remaining(Direction.PreviousSibling, e)
  {
    if e != [] && e[|e| - 1] > 0 {
      var last := e[|e| - 1] - 1;
      var n := Nth(e, last);
      SiblingReached(pg, ctx, inner, base, n);
      assert forall j: nat :: Nth(n, j) == Nth(e, j);
    }
  }

  ghost predicate IsNearest(t: Tree, e: Path, j: nat)
    requires e != []
  {
    && j < e[|e| - 1] && IsElement(t, Nth(e, j))
    && forall k: nat | j < k < e[|e| - 1] :: !IsElement(t, Nth(e, k))
  }

  /** The nearest element before `e` is its neighbour, or else the nearest before that. */
  lemma NearestStep(t: Tree, e: Path)
    requires e != [] && e[|e| - 1] > 0
    ensures var last := e[|e| - 1] - 1;
      forall j: nat :: IsNearest(t, e, j) <==>
        if IsElement(t, Nth(e, last)) then j == last else IsNearest(t, Nth(e, last), j)
  {
    hide IsElement;
    var last := e[|e| - 1] - 1;
    assert forall j: nat :: Nth(Nth(e, last), j) == Nth(e, j);
  }

  lemma {:induction false} AdjacentReached(pg: Page, ctx: Path, inner: Matcher, base: bool, e: Path)
    ensures Reaches(pg, ctx, inner, Adjacent, base, e) <==>
            e != [] && exists j: nat :: IsNearest(pg.tree, e, j) && Holds(pg, ctx, inner, Nth(e, j))
    decreases Remaining(Direction.PreviousSibling, e)
  {
    if e != [] && e[|e| - 1] > 0 {
      var n := Nth(e, e[|e| - 1] - 1);
      AdjacentReached(pg, ctx, inner, base, n);
      NearestStep(pg.tree, e);
      assert forall j: nat :: Nth(n, j) == Nth(e, j);
      hide IsNearest, Holds;
    }
  }

  /** Some node in the relation, of the kind the walk looks at, satisfies the inner matcher. */
  ghost predicate FindsRelated(pg: Page, ctx: Path, inner: Matcher, c: Combinator, base: bool, e: Path) {
    exists a :: Related(pg.tree, c, a, e) && Eligible(pg, c, base, a) && Holds(pg, ctx, inner, a)
  }

  lemma DescendantWalk(pg: Page, ctx: Path, inner: Matcher, base: bool, e: Path)
    ensures Reaches(pg, ctx, inner, Descendant, base, e) <==> FindsRelated(pg, ctx, inner, Descendant, base, e)
  {
    AncestorReached(pg, ctx, inner, base, e);
    if Reaches(pg, ctx, inner, Descendant, base, e) {
      var k :| 0 <= k < |e| && Eligible(pg, Descendant, base, e[..k]) && Holds(pg, ctx, inner, e[..k]);
      assert Related(pg.tree, Descendant, e[..k], e);
    }
    if FindsRelated(pg, ctx, inner, Descendant, base, e) {
      var a :| Related(pg.tree, Descendant, a, e) && Eligible(pg, Descendant, base, a) && Holds(pg, ctx, inner, a);
      assert e[..|a|] == a;
    }
  }

  lemma AdjacentWalk(pg: Page, ctx: Path, inner: Matcher, base: bool, e: Path)
    ensures Reaches(pg, ctx, inner, Adjacent, base, e) <==> FindsRelated(pg, ctx, inner, Adjacent, base, e)
  {
    AdjacentReached(pg, ctx, inner, base, e);
    if Reaches(pg, ctx, inner, Adjacent, base, e) {
      var j: nat :| IsNearest(pg.tree, e, j) && Holds(pg, ctx, inner, Nth(e, j));
      forall k | j < k < e[|e| - 1] ensures !IsElement(pg.tree, e[..|e| - 1] + [k]) {
        assert !IsElement(pg.tree, Nth(e, k));
      }
      assert Related(pg.tree, Adjacent, Nth(e, j), e);
    }
    if FindsRelated(pg, ctx, inner, Adjacent, base, e) {
      var a :| Related(pg.tree, Adjacent, a, e) && Eligible(pg, Adjacent, base, a) && Holds(pg, ctx, inner, a);
      var j := a[|a| - 1];
      assert a == Nth(e, j);
      assert IsNearest(pg.tree, e, j);
    }
  }

  lemma GeneralWalk(pg: Page, ctx: Path, inner: Matcher, base: bool, e: Path)
    ensures Reaches(pg, ctx, inner, General, base, e) <==> FindsRelated(pg, ctx, inner, General, base, e)
  {
    SiblingReached(pg, ctx, inner, base, e);
    if Reaches(pg, ctx, inner, General, base, e) {
      var j: nat :| j < e[|e| - 1] && IsElement(pg.tree, Nth(e, j)) && Holds(pg, ctx, inner, Nth(e, j));
      assert Related(pg.tree, General, Nth(e, j), e);
    }
    if FindsRelated(pg, ctx, inner, General, base, e) {
      var a :| Related(pg.tree, General, a, e) && Eligible(pg, General, base, a) && Holds(pg, ctx, inner, a);
      assert a == Nth(e, a[|a| - 1]);
    }
  }

  /** A combinator's walk finds exactly what stands in its relation to `e`. */
  lemma WalkFindsRelated(pg: Page, ctx: Path, inner: Matcher, c: Combinator, base: bool, e: Path)
    requires WellFormed(pg.tree) && Valid(pg.tree, e)
    ensures Reaches(pg, ctx, inner, c, base, e) <==> FindsRelated(pg, ctx, inner, c, base, e)
  {
    match c
    case Child =>
      ParentReached(pg, ctx, inner, base, e);
      if e != [] {
        assert Related(pg.tree, Child, e[..|e| - 1], e);
      }
    case Descendant => DescendantWalk(pg, ctx, inner, base, e);
    case Adjacent => AdjacentWalk(pg, ctx, inner, base, e);
    case General => GeneralWalk(pg, ctx, inner, base, e);
  }

  // ---- The compiler ----

  function ElementMatcher(ms: seq<Matcher>): Matcher
    requires ms != []
  {
    if |ms| > 1 then All(ms) else ms[0]
  }

  /** The list `matchers` after reading `body`; `first` is the next free combinator number. */
  function MatcherList(lead: Option<Combinator>, body: seq<Token>, first: nat): (r: seq<Matcher>)
    ensures r != []
  {
    if body == [] then
      [ContextCheck(lead.Some?, Combine(IsContext, if lead.Some? then lead.value else Descendant, true, first))]
    else
      var before := MatcherList(lead, body[..|body| - 1], first);
      match body[|body| - 1]
      case Simple(kind, arg, _) => before + [Test(kind, arg)]
      case Relative(c, _) =>
        [Combine(ElementMatcher(before), c, false, first + 2 + |Combinators(body[..|body| - 1])|)]
  }

  function Compiled(ts: seq<Token>, first: nat): Matcher {
    ElementMatcher(MatcherList(Lead(ts), Body(ts), first))
  }

  ghost predicate IsCompiled(m: Matcher, ts: seq<Token>) {
    exists first :: m == Compiled(ts, first)
  }

  /** How many numbers `matcherFromTokens` draws from `done`. */
  function NamesUsed(ts: seq<Token>): nat {
    2 + |Combinators(Body(ts))|
  }

  /** `matcherFromTokens`, for tokens without positional filters. */
  method MatcherFromTokens(z: Engine, ts: seq<Token>) returns (m: Matcher)
    requires ts != []
    modifies z`done
    ensures m == Compiled(ts, old(z.done))
    ensures z.done == old(z.done) + NamesUsed(ts)
  {
    var leading := ts[0].Relative?;
    var relative := if leading then ts[0].c else Descendant;
    var i := if leading then 1 else 0;
    ghost var body := Body(ts);
    ghost var skip := i;
    // matchContext and matchAnyContext each take a number
    var matchers := [ContextCheck(leading, Combine(IsContext, relative, true, z.done))];
    z.done := z.done + 2;
    while i < |ts|
      invariant skip <= i <= |ts|
      invariant matchers == MatcherList(Lead(ts), body[..i - skip], old(z.done))
      invariant z.done == old(z.done) + 2 + |Combinators(body[..i - skip])|
    {
      assert body[..i + 1 - skip][..i - skip] == body[..i - skip] && ts[i] == body[i - skip];
      match ts[i] {
        case Relative(c, _) =>
          matchers := [Combine(ElementMatcher(matchers), c, false, z.done)];
          z.done := z.done + 1;
        case Simple(kind, arg, _) =>
          matchers := matchers + [Test(kind, arg)];
      }
      i := i + 1;
    }
    assert body[..|body|] == body;
    m := ElementMatcher(matchers);
  }

  /** A list of matchers as `matcherFromTokens` keeps it: a head that looks elsewhere, then
      filters; its combinator numbers lie in `first..last`. */
  ghost predicate IsMatcherList(ms: seq<Matcher>, first: nat, last: nat) {
    && ms != [] && WellFormedMatcher(ms[0])
    && (forall i | 1 <= i < |ms| :: ms[i].Test?)
    && (forall k | k in Names(ms[0]) :: first <= k < last)
  }

  lemma CompoundOfMatchers(ms: seq<Matcher>, first: nat, last: nat)
    requires IsMatcherList(ms, first, last)
    ensures WellFormedMatcher(ElementMatcher(ms))
    ensures forall k | k in Names(ElementMatcher(ms)) :: first <= k < last
  {
    forall k | k in Names(ElementMatcher(ms)) ensures k in Names(ms[0]) {
      if |ms| > 1 {
        var i :| 0 <= i < |ms| && k in Names(ms[i]);
        assert i >= 1 ==> Names(ms[i]) == {};
      }
    }
  }

  /** What the compiler builds has the shape the cache relies on, with numbers of its own. */
  lemma {:induction false} CompiledIsWellFormed(lead: Option<Combinator>, body: seq<Token>, first: nat)
    ensures IsMatcherList(MatcherList(lead, body, first), first, first + 2 + |Combinators(body)|)
    decreases |body|
  {
    var ms := MatcherList(lead, body, first);
    if body == [] {
      var reach := ms[0].reach;
      assert Names(ms[0]) == Names(reach) == {first};
    } else {
      var init := body[..|body| - 1];
      var before := MatcherList(lead, init, first);
      var upto := first + 2 + |Combinators(init)|;
      CompiledIsWellFormed(lead, init, first);
      if body[|body| - 1].Simple? {
        assert ms[0] == before[0];
      } else {
        CompoundOfMatchers(before, first, upto);
        assert Names(ms[0]) == Names(ElementMatcher(before)) + {upto};
      }
    }
  }

  /** The head of a compound is tried with the compound's filters: together they hold exactly
      when all members hold. */
  lemma CompoundHolds(pg: Page, ctx: Path, ms: seq<Matcher>, e: Path)
    requires ms != []
    ensures Holds(pg, ctx, ElementMatcher(ms), e) <==> forall i | 0 <= i < |ms| :: Holds(pg, ctx, ms[i], e)
  {
  }

  lemma ContextReached(pg: Page, ctx: Path, lead: Option<Combinator>, first: nat, e: Path)
    requires WellFormed(pg.tree) && IsElement(pg.tree, e)
    ensures Holds(pg, ctx, MatcherList(lead, [], first)[0], e) <==> Anchored(pg, ctx, lead, e)
  {
    ElementIsValid(pg.tree, e);
    var c := if lead.Some? then lead.value else Descendant;
    WalkFindsRelated(pg, ctx, IsContext, c, true, e);
    if Reaches(pg, ctx, IsContext, c, true, e) {
      var a :| Related(pg.tree, c, a, e) && Eligible(pg, c, true, a) && Holds(pg, ctx, IsContext, a);
      assert Related(pg.tree, c, ctx, e);
    }
    if Related(pg.tree, c, ctx, e) {
      assert Eligible(pg, c, true, ctx) && Holds(pg, ctx, IsContext, ctx);
    }
  }

  /** The compiled matcher, asked without a cache, decides the meaning of the tokens. */
  lemma {:induction false} CompiledMeans(pg: Page, ctx: Path, lead: Option<Combinator>, body: seq<Token>, first: nat, e: Path)
    requires WellFormed(pg.tree) && IsElement(pg.tree, e)
    ensures Holds(pg, ctx, ElementMatcher(MatcherList(lead, body, first)), e) <==> Means(pg, ctx, lead, body, e)
    decreases |body|
  {
    if body == [] {
      ContextReached(pg, ctx, lead, first, e);
    } else {
      var init, last := body[..|body| - 1], body[|body| - 1];
      var before := MatcherList(lead, init, first);
      match last {
        case Simple(kind, arg, _) =>
          CompiledMeans(pg, ctx, lead, init, first, e);
          CompoundHolds(pg, ctx, before, e);
          var ms := before + [Test(kind, arg)];
          CompoundHolds(pg, ctx, ms, e);
          assert ms[|before|] == Test(kind, arg) && forall i | 0 <= i < |before| :: ms[i] == before[i];
        case Relative(c, _) =>
          ElementIsValid(pg.tree, e);
          var inner := ElementMatcher(before);
          WalkFindsRelated(pg, ctx, inner, c, false, e);
          forall a | IsElement(pg.tree, a) ensures Holds(pg, ctx, inner, a) <==> Means(pg, ctx, lead, init, a) {
            CompiledMeans(pg, ctx, lead, init, first, a);
          }
      }
    }
  }

  // ---- One run over the candidates ----

  ghost predicate AnyHolds(pg: Page, ctx: Path, ms: seq<Matcher>, e: Path) {
    exists k :: 0 <= k < |ms| && Holds(pg, ctx, ms[k], e)
  }

  ghost predicate Independent(ms: seq<Matcher>) {
    && (forall k | 0 <= k < |ms| :: WellFormedMatcher(ms[k]))
    && (forall j, k | 0 <= j < |ms| && 0 <= k < |ms| && j != k :: Names(ms[j]) !! Names(ms[k]))
  }

  ghost predicate AllSound(pg: Page, ctx: Path, ms: seq<Matcher>, cache: Cache, run: nat, candidate: nat, strong: bool) {
    forall k | 0 <= k < |ms| :: Sound(pg, ctx, ms[k], cache, run, candidate, strong)
  }

  ghost predicate UpToRun(cache: Cache, run: nat) {
    forall s | s in cache :: cache[s].run <= run
  }

  /** Asking one group keeps the account of all groups. */
  lemma AskedOne(pg: Page, ctx: Path, ms: seq<Matcher>, j: nat, a: Cache, b: Cache, e: Path, run: nat, candidate: nat, strong: bool)
    requires j < |ms| && Independent(ms) && AllSound(pg, ctx, ms, a, run, candidate, true)
    requires Sound(pg, ctx, ms[j], b, run, candidate, strong) && Touched(a, b, e, Names(ms[j]), run)
    requires UpToRun(a, run)
    ensures AllSound(pg, ctx, ms, b, run, candidate, strong) && UpToRun(b, run)
  {
    forall k | 0 <= k < |ms| ensures Sound(pg, ctx, ms[k], b, run, candidate, strong) {
      if k != j {
        OverwritingKeepsSound(pg, ctx, ms[k], a, b, run, candidate, true);
        if !strong {
          StrongIsWeak(pg, ctx, ms[k], b, run, candidate);
        }
      }
    }
    forall s | s in b ensures b[s].run <= run {
      assert SameSlot(a, b, s) || b[s].run == run;
    }
  }

  /** What `matcherFromGroupMatchers` returns, for groups without positional filters. */
  class SuperMatcher {
    const elementMatchers: seq<Matcher>
    var matcherCachedRuns: nat

    constructor (ms: seq<Matcher>)
      ensures elementMatchers == ms && matcherCachedRuns == 0
    {
      elementMatchers := ms;
      matcherCachedRuns := 0;
    }

    /** Try the groups on one candidate until one matches. */
    method TryGroups(z: Engine, pg: Page, ctx: Path, e: Path) returns (found: bool)
      requires Independent(elementMatchers) && UpToRun(z.cache, z.dirruns)
      requires AllSound(pg, ctx, elementMatchers, z.cache, z.dirruns, z.cachedruns, true)
      modifies z`cache
      ensures found <==> AnyHolds(pg, ctx, elementMatchers, e)
      ensures AllSound(pg, ctx, elementMatchers, z.cache, z.dirruns, z.cachedruns, false)
      ensures UpToRun(z.cache, z.dirruns)
    {
      var j := 0;
      while j < |elementMatchers|
        invariant 0 <= j <= |elementMatchers|
        invariant forall k | 0 <= k < j :: !Holds(pg, ctx, elementMatchers[k], e)
        invariant AllSound(pg, ctx, elementMatchers, z.cache, z.dirruns, z.cachedruns, true)
        invariant UpToRun(z.cache, z.dirruns)
      {
        ghost var before := z.cache;
        found := z.Match(pg, ctx, elementMatchers[j], e);
        AskedOne(pg, ctx, elementMatchers, j, before, z.cache, e, z.dirruns, z.cachedruns, !found);
        if found {
          return;
        }
        j := j + 1;
      }
      forall k | 0 <= k < |elementMatchers| {
        StrongIsWeak(pg, ctx, elementMatchers[k], z.cache, z.dirruns, z.cachedruns);
      }
      return false;
    }

    /** An outermost run: a fresh run number, then every candidate in turn.  It may follow any
        number of earlier runs of this or of other compiled selectors. */
    method Run(z: Engine, pg: Page, ctx: Path, elems: seq<Path>, results: seq<Path>) returns (out: seq<Path>)
      requires Independent(elementMatchers) && UpToRun(z.cache, z.dirruns)
      modifies z, this
      ensures out == results + Filter(elems, e => AnyHolds(pg, ctx, elementMatchers, e))
      ensures UpToRun(z.cache, z.dirruns) && z.done == old(z.done)
    {
      hide Sound, AnyHolds, Independent;
      z.dirruns := z.dirruns + 1;
      z.cachedruns := matcherCachedRuns;
      forall k | 0 <= k < |elementMatchers| {
        NewRun(pg, ctx, elementMatchers[k], z.cache, z.dirruns, z.cachedruns);
      }
      ghost var keep := e => AnyHolds(pg, ctx, elementMatchers, e);
      out := results;
      var i := 0;
      while i < |elems|
        invariant 0 <= i <= |elems|
        invariant out == results + Filter(elems[..i], keep)
        invariant AllSound(pg, ctx, elementMatchers, z.cache, z.dirruns, z.cachedruns, true)
        invariant UpToRun(z.cache, z.dirruns) && z.done == old(z.done)
        invariant z.cachedruns == matcherCachedRuns
      {
        var found := TryGroups(z, pg, ctx, elems[i]);
        if found {
          out := out + [elems[i]];
        }
        forall k | 0 <= k < |elementMatchers| {
          NextCandidate(pg, ctx, elementMatchers[k], z.cache, z.dirruns, z.cachedruns);
        }
        matcherCachedRuns := matcherCachedRuns + 1;
        z.cachedruns := matcherCachedRuns;
        FilterLast(elems[..i + 1], keep);
        assert elems[..i + 1][..i] == elems[..i];
        i := i + 1;
      }
      assert elems[..i] == elems;
    }
  }

  ghost predicate NamesBelow(ms: seq<Matcher>, below: nat) {
    forall k, name | 0 <= k < |ms| && name in Names(ms[k]) :: name < below
  }

  lemma OneMoreGroup(ms: seq<Matcher>, m: Matcher, first: nat, last: nat)
    requires Independent(ms) && NamesBelow(ms, first) && first <= last
    requires WellFormedMatcher(m) && forall name | name in Names(m) :: first <= name < last
    ensures Independent(ms + [m]) && NamesBelow(ms + [m], last)
  {
    var more := ms + [m];
    forall j | 0 <= j < |ms| ensures Names(ms[j]) !! Names(m) {
      assert forall name | name in Names(ms[j]) :: name < first;
    }
    assert forall j | 0 <= j < |ms| :: more[j] == ms[j];
  }

  /** The groups are compiled from the last to the first. */
  method Compile(z: Engine, groups: seq<seq<Token>>) returns (sm: SuperMatcher)
    requires forall k | 0 <= k < |groups| :: groups[k] != []
    modifies z`done
    ensures fresh(sm) && Independent(sm.elementMatchers)
    ensures z.done >= old(z.done)
    ensures |sm.elementMatchers| == |groups|
    ensures forall k | 0 <= k < |groups| ::
              IsCompiled(sm.elementMatchers[k], groups[|groups| - 1 - k])
  {
    var ms := [];
    var i := |groups|;
    while i > 0
      invariant 0 <= i <= |groups| && |ms| == |groups| - i
      invariant z.done >= old(z.done)
      invariant Independent(ms) && NamesBelow(ms, z.done)
      invariant forall k | 0 <= k < |ms| :: IsCompiled(ms[k], groups[|groups| - 1 - k])
    {
      i := i - 1;
      ghost var first := z.done;
      var m := MatcherFromTokens(z, groups[i]);
      CompiledIsWellFormed(Lead(groups[i]), Body(groups[i]), first);
      CompoundOfMatchers(MatcherList(Lead(groups[i]), Body(groups[i]), first), first, z.done);
      OneMoreGroup(ms, m, first, z.done);
      ms := ms + [m];
      assert IsCompiled(ms[|ms| - 1], groups[i]);
    }
    sm := new SuperMatcher(ms);
  }

  lemma CompiledGroupsMean(pg: Page, ctx: Path, groups: seq<seq<Token>>, ms: seq<Matcher>, e: Path)
    requires WellFormed(pg.tree) && IsElement(pg.tree, e) && |ms| == |groups|
    requires forall k | 0 <= k < |groups| :: IsCompiled(ms[k], groups[|groups| - 1 - k])
    ensures AnyHolds(pg, ctx, ms, e) <==> SelectedByAny(pg, ctx, groups, e)
  {
    forall k | 0 <= k < |groups|
      ensures Holds(pg, ctx, ms[k], e) <==> Selected(pg, ctx, groups[|groups| - 1 - k], e)
    {
      var g := groups[|groups| - 1 - k];
      var first :| ms[k] == Compiled(g, first);
      CompiledMeans(pg, ctx, Lead(g), Body(g), first, e);
      SelectedMeans(pg, ctx, g, e);
    }
    if SelectedByAny(pg, ctx, groups, e) {
      var g :| 0 <= g < |groups| && Selected(pg, ctx, groups[g], e);
      assert Holds(pg, ctx, ms[|groups| - 1 - g], e);
    }
  }
}
