/** The compiled matchers of Sizzle, their plain meaning, and the run that caches
    the outcome of combinators on the nodes it passes. */
module Matching {
  import opened Optional
  import opened Dom
  import opened Selectors

  /** The closures the compiler builds, as data.  `Combine` is what `addCombinator`
      returns, `name` its `doneName`; `All` is a compound of `elementMatcher`. */
  datatype Matcher =
    | Test(kind: FilterType, arg: string)
    | IsContext
    | ContextCheck(leading: bool, reach: Matcher)
    | Combine(inner: Matcher, c: Combinator, base: bool, name: nat)
    | All(ms: seq<Matcher>)

  function Step(dir: Direction, e: Path): Option<Path> {
    match dir
    case ParentNode => Dom.ParentNode(e)
    case PreviousSibling => Dom.PreviousSibling(e)
  }

  /** How many steps remain in a direction. */
  function Remaining(dir: Direction, e: Path): nat {
    match dir
    case ParentNode => |e|
    case PreviousSibling => if e == [] then 0 else e[|e| - 1]
  }

  /** `elem.nodeType === 1 || checkNonElements` */
  predicate Eligible(pg: Page, c: Combinator, base: bool, n: Path) {
    IsElement(pg.tree, n) || (base && c.Dir().ParentNode?)
  }

  /** The verdict of a matcher without any cache. */
  predicate Holds(pg: Page, ctx: Path, m: Matcher, e: Path)
    decreases m, 0, 0
  {
    match m
    case Test(kind, arg) => pg.sat(kind, arg, e)
    case IsContext => e == ctx
    case ContextCheck(leading, reach) =>
      (!leading && (!pg.html || ctx == [])) || Holds(pg, ctx, reach, e)
    case Combine(inner, c, base, _) => Reaches(pg, ctx, inner, c, base, e)
    case All(ms) => forall i | 0 <= i < |ms| :: Holds(pg, ctx, ms[i], e)
  }

  /** The loop without a cache: walk from `e` until the inner matcher holds, or for a
      `first` combinator until the first eligible node. */
  predicate Reaches(pg: Page, ctx: Path, inner: Matcher, c: Combinator, base: bool, e: Path)
    decreases inner, 1, Remaining(c.Dir(), e)
  {
    match Step(c.Dir(), e)
    case None => false
    case Some(n) =>
      if !Eligible(pg, c, base, n) then Reaches(pg, ctx, inner, c, base, n)
      else if c.First() then Holds(pg, ctx, inner, n)
      else Holds(pg, ctx, inner, n) || Reaches(pg, ctx, inner, c, base, n)
  }

  // ---- The cache ----

  /** `elem[expando][dir]` */
  datatype Slot = Slot(node: Path, dir: Direction)

  /** `cache[1]`: not yet written, `true`, or the candidate number of a failure. */
  datatype Verdict = Pending | Yes | No(candidate: nat)

  /** `cache[0]` is the run number and the combinator number. */
  datatype Cell = Cell(run: nat, name: nat, verdict: Verdict)

  type Cache = map<Slot, Cell>

  function Names(m: Matcher): set<nat> {
    match m
    case Test(_, _) => {}
    case IsContext => {}
    case ContextCheck(_, reach) => Names(reach)
    case Combine(inner, _, _, name) => Names(inner) + {name}
    case All(ms) => set i, k | 0 <= i < |ms| && k in Names(ms[i]) :: k
  }

  /** The shape the compiler produces: combinator numbers differ from those nested inside,
      and only the first member of a compound, which is tried last, looks elsewhere. */
  predicate WellFormedMatcher(m: Matcher) {
    match m
    case Test(_, _) => true
    case IsContext => true
    case ContextCheck(_, reach) => reach.Combine? && reach.inner.IsContext?
    case Combine(inner, _, _, name) => WellFormedMatcher(inner) && name !in Names(inner)
    case All(ms) =>
      |ms| > 1 && WellFormedMatcher(ms[0]) && forall i | 1 <= i < |ms| :: ms[i].Test?
  }

  /** What a cell of the current run says: `Yes` that the inner matcher holds at the node,
      `No(j)` that it fails there.  While evaluation of the candidate can still go on
      (`strong`), the current number also says that nothing further along matches. */
  ghost predicate CellTells(pg: Page, ctx: Path, m: Matcher, n: Path, v: Verdict, candidate: nat, strong: bool)
    requires m.Combine?
  {
    match v
    case Pending => false
    case Yes => Holds(pg, ctx, m.inner, n)
    case No(j) =>
      && !Holds(pg, ctx, m.inner, n)
      && j <= candidate
      && (strong && j == candidate ==> !Reaches(pg, ctx, m.inner, m.c, m.base, n))
  }

  /** Every cell that belongs to a combinator of `m` tells the truth. */
  ghost predicate Sound(pg: Page, ctx: Path, m: Matcher, cache: Cache, run: nat, candidate: nat, strong: bool) {
    match m
    case Test(_, _) => true
    case IsContext => true
    case ContextCheck(_, reach) => Sound(pg, ctx, reach, cache, run, candidate, strong)
    case Combine(inner, c, base, name) =>
      && Sound(pg, ctx, inner, cache, run, candidate, strong)
      && forall s | s in cache && s.dir == c.Dir() && cache[s].run == run && cache[s].name == name ::
           CellTells(pg, ctx, m, s.node, cache[s].verdict, candidate, strong)
    case All(ms) => forall i | 0 <= i < |ms| :: Sound(pg, ctx, ms[i], cache, run, candidate, strong)
  }

  ghost predicate SameSlot(a: Cache, b: Cache, s: Slot) {
    (s in a <==> s in b) && (s in a && s in b ==> a[s] == b[s])
  }

  /** Only cells of nodes before `e` changed, and they now belong to `names`. */
  ghost predicate Touched(a: Cache, b: Cache, e: Path, names: set<nat>, run: nat) {
    forall s :: SameSlot(a, b, s) ||
      (s in b && Before(s.node, e) && b[s].run == run && b[s].name in names)
  }

  lemma TouchedTwice(a: Cache, b: Cache, c: Cache, e: Path, names: set<nat>, run: nat)
    requires Touched(a, b, e, names, run) && Touched(b, c, e, names, run)
    ensures Touched(a, c, e, names, run)
  {
    forall s ensures SameSlot(a, c, s) || (s in c && Before(s.node, e) && c[s].run == run && c[s].name in names) {
      assert SameSlot(a, b, s) || (s in b && Before(s.node, e) && b[s].run == run && b[s].name in names);
      assert SameSlot(b, c, s) || (s in c && Before(s.node, e) && c[s].run == run && c[s].name in names);
    }
  }

  lemma TouchedWider(a: Cache, b: Cache, n: Path, e: Path, names: set<nat>, more: set<nat>, run: nat)
    requires Touched(a, b, n, names, run) && Before(n, e) && names <= more
    ensures Touched(a, b, e, more, run)
  {
    forall s ensures SameSlot(a, b, s) || (s in b && Before(s.node, e) && b[s].run == run && b[s].name in more) {
      if !SameSlot(a, b, s) {
        BeforeTransitive(s.node, n, e);
      }
    }
  }

  lemma StepIsBefore(dir: Direction, e: Path)
    requires Step(dir, e).Some?
    ensures Before(Step(dir, e).value, e) && Remaining(dir, Step(dir, e).value) < Remaining(dir, e)
  {
    var n := Step(dir, e).value;
    match dir
    case ParentNode => AncestorIsBefore(n, e);
    case PreviousSibling =>
      assert e == e[..|e| - 1] + [e[|e| - 1]];
      EarlierSiblingIsBefore(e[..|e| - 1], e[|e| - 1] - 1, e[|e| - 1]);
  }

  /** Cells overwritten by other combinators never change what `m` can rely on. */
  lemma {:induction false} OverwritingKeepsSound(pg: Page, ctx: Path, m: Matcher, a: Cache, b: Cache, run: nat, candidate: nat, strong: bool)
    requires Sound(pg, ctx, m, a, run, candidate, strong)
    requires forall s :: SameSlot(a, b, s) || (s in b && b[s].name !in Names(m))
    ensures Sound(pg, ctx, m, b, run, candidate, strong)
  {
    match m
    case Test(_, _) =>
    case IsContext =>
    case ContextCheck(_, reach) => OverwritingKeepsSound(pg, ctx, reach, a, b, run, candidate, strong);
    case Combine(inner, c, base, name) =>
      OverwritingKeepsSound(pg, ctx, inner, a, b, run, candidate, strong);
      forall s | s in b && s.dir == c.Dir() && b[s].run == run && b[s].name == name
        ensures CellTells(pg, ctx, m, s.node, b[s].verdict, candidate, strong)
      {
        assert SameSlot(a, b, s);
      }
    case All(ms) =>
      forall i | 0 <= i < |ms| ensures Sound(pg, ctx, ms[i], b, run, candidate, strong) {
        assert Names(ms[i]) <= Names(m);
        OverwritingKeepsSound(pg, ctx, ms[i], a, b, run, candidate, strong);
      }
  }

  lemma {:induction false} StrongIsWeak(pg: Page, ctx: Path, m: Matcher, cache: Cache, run: nat, candidate: nat)
    requires Sound(pg, ctx, m, cache, run, candidate, true)
    ensures Sound(pg, ctx, m, cache, run, candidate, false)
  {
    match m
    case Test(_, _) =>
    case IsContext =>
    case ContextCheck(_, reach) => StrongIsWeak(pg, ctx, reach, cache, run, candidate);
    case Combine(inner, _, _, _) => StrongIsWeak(pg, ctx, inner, cache, run, candidate);
    case All(ms) =>
      forall i | 0 <= i < |ms| { StrongIsWeak(pg, ctx, ms[i], cache, run, candidate); }
  }

  /** Counting the candidate turns every failure mark into a mere local failure. */
  lemma {:induction false} NextCandidate(pg: Page, ctx: Path, m: Matcher, cache: Cache, run: nat, candidate: nat)
    requires Sound(pg, ctx, m, cache, run, candidate, false)
    ensures Sound(pg, ctx, m, cache, run, candidate + 1, true)
  {
    match m
    case Test(_, _) =>
    case IsContext =>
    case ContextCheck(_, reach) => NextCandidate(pg, ctx, reach, cache, run, candidate);
    case Combine(inner, _, _, _) => NextCandidate(pg, ctx, inner, cache, run, candidate);
    case All(ms) =>
      forall i | 0 <= i < |ms| { NextCandidate(pg, ctx, ms[i], cache, run, candidate); }
  }

  /** A new run number makes all older cells irrelevant. */
  lemma {:induction false} NewRun(pg: Page, ctx: Path, m: Matcher, cache: Cache, run: nat, candidate: nat)
    requires forall s | s in cache :: cache[s].run < run
    ensures Sound(pg, ctx, m, cache, run, candidate, true)
  {
    match m
    case Test(_, _) =>
    case IsContext =>
    case ContextCheck(_, reach) => NewRun(pg, ctx, reach, cache, run, candidate);
    case Combine(inner, _, _, _) => NewRun(pg, ctx, inner, cache, run, candidate);
    case All(ms) => forall i | 0 <= i < |ms| { NewRun(pg, ctx, ms[i], cache, run, candidate); }
  }

  /** During the walk of a combinator from `e` that has come to `x`: failures already marked
      on the way share the fate of the walk, all others are as at its start. */
  ghost predicate WalkTells(pg: Page, ctx: Path, m: Matcher, e: Path, x: Path, n: Path, v: Verdict, candidate: nat)
    requires m.Combine?
  {
    match v
    case Pending => false
    case Yes => Holds(pg, ctx, m.inner, n)
    case No(j) =>
      && !Holds(pg, ctx, m.inner, n)
      && j <= candidate
      && (j == candidate ==>
            if Before(n, x) then !Reaches(pg, ctx, m.inner, m.c, m.base, n)
            else Reaches(pg, ctx, m.inner, m.c, m.base, n) ==> Reaches(pg, ctx, m.inner, m.c, m.base, e))
  }

  ghost predicate WalkSound(pg: Page, ctx: Path, m: Matcher, cache: Cache, run: nat, candidate: nat, e: Path, x: Path)
    requires m.Combine?
  {
    forall s | s in cache && s.dir == m.c.Dir() && cache[s].run == run && cache[s].name == m.name ::
      WalkTells(pg, ctx, m, e, x, s.node, cache[s].verdict, candidate)
  }

  lemma StepBack(dir: Direction, x: Path, e: Path)
    requires x == e || Before(x, e)
    ensures var next := Step(dir, x);
      next.Some? ==> Before(next.value, x) && Before(next.value, e) && Remaining(dir, next.value) < Remaining(dir, x)
  {
    if Step(dir, x).Some? {
      StepIsBefore(dir, x);
      if x != e {
        BeforeTransitive(Step(dir, x).value, x, e);
      }
    }
  }

  lemma NothingTouched(a: Cache, b: Cache, e: Path, run: nat)
    requires Touched(a, b, e, {}, run)
    ensures a == b
  {
    forall s ensures (s in a <==> s in b) && (s in a ==> a[s] == b[s]) {
      assert SameSlot(a, b, s);
    }
  }

  /** Running the inner matcher leaves the combinator's own cells alone or overwrites them. */
  lemma OwnCellsKept(pg: Page, ctx: Path, m: Matcher, a: Cache, b: Cache, run: nat, candidate: nat, strong: bool)
    requires m.Combine? && WellFormedMatcher(m)
    requires Sound(pg, ctx, m, a, run, candidate, strong)
    requires Sound(pg, ctx, m.inner, b, run, candidate, strong)
    requires exists x :: Touched(a, b, x, Names(m.inner), run)
    ensures Sound(pg, ctx, m, b, run, candidate, strong)
  {
    var x :| Touched(a, b, x, Names(m.inner), run);
    forall s | s in b && s.dir == m.c.Dir() && b[s].run == run && b[s].name == m.name
      ensures CellTells(pg, ctx, m, s.node, b[s].verdict, candidate, strong)
    {
      assert SameSlot(a, b, s);
    }
  }

  lemma WalkOn(pg: Page, ctx: Path, m: Matcher, cache: Cache, run: nat, candidate: nat, e: Path, x: Path, n: Path)
    requires m.Combine? && Before(n, x) && WalkSound(pg, ctx, m, cache, run, candidate, e, x)
    ensures WalkSound(pg, ctx, m, cache, run, candidate, e, n)
  {
    forall s | s in cache && Before(s.node, n) ensures Before(s.node, x) {
      BeforeTransitive(s.node, n, x);
    }
  }

  /** Marking the node just passed keeps the walk's account. */
  lemma WalkMarks(pg: Page, ctx: Path, m: Matcher, before: Cache, answered: Cache, after: Cache, run: nat, candidate: nat, e: Path, x: Path)
    requires m.Combine? && WellFormedMatcher(m) && !m.c.First()
    requires WalkSound(pg, ctx, m, before, run, candidate, e, x)
    requires var slot := Slot(x, m.c.Dir());
      && Touched(before[slot := Cell(run, m.name, Pending)], answered, x, Names(m.inner), run)
      && after == answered[slot := Cell(run, m.name, if Holds(pg, ctx, m.inner, x) then Yes else No(candidate))]
    requires Reaches(pg, ctx, m.inner, m.c, m.base, x) ==> Reaches(pg, ctx, m.inner, m.c, m.base, e)
    ensures WalkSound(pg, ctx, m, after, run, candidate, e, x)
  {
    BeforeTotal(x, x);
    var slot := Slot(x, m.c.Dir());
    var asked := before[slot := Cell(run, m.name, Pending)];
    forall s | s in after && s.dir == m.c.Dir() && after[s].run == run && after[s].name == m.name
      ensures WalkTells(pg, ctx, m, e, x, s.node, after[s].verdict, candidate)
    {
      if s != slot {
        assert SameSlot(asked, answered, s);
        assert s in before && before[s] == after[s];
      }
    }
  }

  /** When the walk is over, its marks mean what they should. */
  lemma WalkEnds(pg: Page, ctx: Path, m: Matcher, cache: Cache, run: nat, candidate: nat, e: Path, x: Path, r: bool)
    requires m.Combine? && Sound(pg, ctx, m.inner, cache, run, candidate, !r)
    requires WalkSound(pg, ctx, m, cache, run, candidate, e, x)
    requires r == Reaches(pg, ctx, m.inner, m.c, m.base, e)
    ensures Sound(pg, ctx, m, cache, run, candidate, !r)
  {
    forall s | s in cache && s.dir == m.c.Dir() && cache[s].run == run && cache[s].name == m.name
      ensures CellTells(pg, ctx, m, s.node, cache[s].verdict, candidate, !r)
    {
      assert WalkTells(pg, ctx, m, e, x, s.node, cache[s].verdict, candidate);
    }
  }

  lemma MarkTouches(before: Cache, asked: Cache, answered: Cache, after: Cache, slot: Slot, e: Path, m: Matcher, run: nat)
    requires m.Combine? && Before(slot.node, e)
    requires asked == before[slot := Cell(run, m.name, Pending)]
    requires Touched(asked, answered, slot.node, Names(m.inner), run)
    requires slot in after && after[slot].run == run && after[slot].name == m.name
    requires after == answered[slot := after[slot]]
    ensures Touched(before, after, e, Names(m), run)
  {
    TouchedWider(asked, answered, slot.node, e, Names(m.inner), Names(m), run);
    assert Touched(before, asked, e, Names(m), run);
    assert Touched(answered, after, e, Names(m), run);
    TouchedTwice(before, asked, answered, e, Names(m), run);
    TouchedTwice(before, answered, after, e, Names(m), run);
  }

  class Engine {
    var cache: Cache
    var dirruns: nat
    var cachedruns: nat
    /** `done`, the counter that numbers combinators. */
    var done: nat

    constructor ()
      ensures cache == map[] && dirruns == 0 && cachedruns == 0 && done == 0
    {
      cache, dirruns, cachedruns, done := map[], 0, 0, 0;
    }

    /** Run a compiled matcher on one node. */
    method Match(pg: Page, ctx: Path, m: Matcher, e: Path) returns (r: bool)
      requires WellFormedMatcher(m)
      requires Sound(pg, ctx, m, cache, dirruns, cachedruns, true)
      modifies this`cache
      ensures r == Holds(pg, ctx, m, e)
      ensures Sound(pg, ctx, m, cache, dirruns, cachedruns, !r)
      ensures Touched(old(cache), cache, e, Names(m), dirruns)
      decreases m, 2
    {
      match m
      case Test(kind, arg) =>
        r := pg.sat(kind, arg, e);
      case IsContext =>
        r := e == ctx;
      case ContextCheck(leading, reach) =>
        if !leading && (!pg.html || ctx == []) {
          r := true;
          StrongIsWeak(pg, ctx, m, cache, dirruns, cachedruns);
        } else {
          r := Match(pg, ctx, reach, e);
        }
      case Combine(inner, c, base, name) =>
        if c.First() {
          r := MatchClosest(pg, ctx, m, e);
        } else if !pg.html {
          r := MatchAnyPlain(pg, ctx, m, e);
        } else {
          r := MatchAnyCached(pg, ctx, m, e);
        }
      case All(ms) =>
        r := MatchAll(pg, ctx, m, e);
    }

    /** `elementMatcher`: the last matcher is tried first. */
    method MatchAll(pg: Page, ctx: Path, m: Matcher, e: Path) returns (r: bool)
      requires m.All? && WellFormedMatcher(m)
      requires Sound(pg, ctx, m, cache, dirruns, cachedruns, true)
      modifies this`cache
      ensures r == Holds(pg, ctx, m, e)
      ensures Sound(pg, ctx, m, cache, dirruns, cachedruns, !r)
      ensures Touched(old(cache), cache, e, Names(m), dirruns)
      decreases m, 0
    {
      var ms := m.ms;
      var i := |ms|;
      while i > 0
        invariant 0 <= i <= |ms|
        invariant forall k | i <= k < |ms| :: Holds(pg, ctx, ms[k], e)
        invariant if i > 0 then cache == old(cache)
                  else Sound(pg, ctx, m, cache, dirruns, cachedruns, false) && Touched(old(cache), cache, e, Names(m), dirruns)
      {
        i := i - 1;
        ghost var before := cache;
        var ok := Match(pg, ctx, ms[i], e);
        if i > 0 {
          NothingTouched(before, cache, e, dirruns);
        }
        if !ok {
          return false;
        }
      }
      return true;
    }

    /** A combinator with `first`: the closest eligible node decides. */
    method MatchClosest(pg: Page, ctx: Path, m: Matcher, e: Path) returns (r: bool)
      requires m.Combine? && m.c.First() && WellFormedMatcher(m)
      requires Sound(pg, ctx, m, cache, dirruns, cachedruns, true)
      modifies this`cache
      ensures r == Holds(pg, ctx, m, e)
      ensures Sound(pg, ctx, m, cache, dirruns, cachedruns, !r)
      ensures Touched(old(cache), cache, e, Names(m), dirruns)
      decreases m, 0
    {
      var x := e;
      var next := Step(m.c.Dir(), x);
      while next.Some?
        invariant next == Step(m.c.Dir(), x) && (x == e || Before(x, e))
        invariant cache == old(cache)
        invariant Reaches(pg, ctx, m.inner, m.c, m.base, e) == Reaches(pg, ctx, m.inner, m.c, m.base, x)
        decreases Remaining(m.c.Dir(), x)
      {
        StepBack(m.c.Dir(), x, e);
        x := next.value;
        if Eligible(pg, m.c, m.base, x) {
          r := Match(pg, ctx, m.inner, x);
          TouchedWider(old(cache), cache, x, e, Names(m.inner), Names(m), dirruns);
          if r {
            StrongIsWeak(pg, ctx, m, old(cache), dirruns, cachedruns);
          }
          OwnCellsKept(pg, ctx, m, old(cache), cache, dirruns, cachedruns, !r);
          return;
        }
        next := Step(m.c.Dir(), x);
      }
      r := false;
    }

    /** The uncached loop, for XML nodes, on which no data can be stored. */
    method MatchAnyPlain(pg: Page, ctx: Path, m: Matcher, e: Path) returns (r: bool)
      requires m.Combine? && !m.c.First() && WellFormedMatcher(m)
      requires Sound(pg, ctx, m, cache, dirruns, cachedruns, true)
      modifies this`cache
      ensures r == Holds(pg, ctx, m, e)
      ensures Sound(pg, ctx, m, cache, dirruns, cachedruns, !r)
      ensures Touched(old(cache), cache, e, Names(m), dirruns)
      decreases m, 0
    {
      var x := e;
      var next := Step(m.c.Dir(), x);
      while next.Some?
        invariant next == Step(m.c.Dir(), x) && (x == e || Before(x, e))
        invariant Sound(pg, ctx, m, cache, dirruns, cachedruns, true)
        invariant Touched(old(cache), cache, e, Names(m), dirruns)
        invariant Reaches(pg, ctx, m.inner, m.c, m.base, e) == Reaches(pg, ctx, m.inner, m.c, m.base, x)
        decreases Remaining(m.c.Dir(), x)
      {
        StepBack(m.c.Dir(), x, e);
        x := next.value;
        if Eligible(pg, m.c, m.base, x) {
          ghost var before := cache;
          r := Match(pg, ctx, m.inner, x);
          TouchedWider(before, cache, x, e, Names(m.inner), Names(m), dirruns);
          TouchedTwice(old(cache), before, cache, e, Names(m), dirruns);
          if r {
            StrongIsWeak(pg, ctx, m, before, dirruns, cachedruns);
          }
          OwnCellsKept(pg, ctx, m, before, cache, dirruns, cachedruns, !r);
          if r {
            return;
          }
        }
        next := Step(m.c.Dir(), x);
      }
      r := false;
    }

    /** On a cache miss: reserve the cell, ask the inner matcher, write down its verdict. */
    method AskAndMark(pg: Page, ctx: Path, m: Matcher, ghost e: Path, x: Path) returns (r: bool)
      requires m.Combine? && !m.c.First() && WellFormedMatcher(m) && Before(x, e)
      requires Sound(pg, ctx, m.inner, cache, dirruns, cachedruns, true)
      requires WalkSound(pg, ctx, m, cache, dirruns, cachedruns, e, x)
      requires Reaches(pg, ctx, m.inner, m.c, m.base, x) ==> Reaches(pg, ctx, m.inner, m.c, m.base, e)
      modifies this`cache
      ensures r == Holds(pg, ctx, m.inner, x)
      ensures Sound(pg, ctx, m.inner, cache, dirruns, cachedruns, !r)
      ensures WalkSound(pg, ctx, m, cache, dirruns, cachedruns, e, x)
      ensures Touched(old(cache), cache, e, Names(m), dirruns)
      decreases m, 0
    {
      var slot := Slot(x, m.c.Dir());
      cache := cache[slot := Cell(dirruns, m.name, Pending)];
      OverwritingKeepsSound(pg, ctx, m.inner, old(cache), cache, dirruns, cachedruns, true);
      ghost var asked := cache;
      r := Match(pg, ctx, m.inner, x);
      BeforeTotal(x, x);
      assert SameSlot(asked, cache, slot);
      ghost var answered := cache;
      cache := cache[slot := Cell(dirruns, m.name, if r then Yes else No(cachedruns))];
      WalkMarks(pg, ctx, m, old(cache), answered, cache, dirruns, cachedruns, e, x);
      OverwritingKeepsSound(pg, ctx, m.inner, answered, cache, dirruns, cachedruns, !r);
      MarkTouches(old(cache), asked, answered, cache, slot, e, m, dirruns);
    }

    /** The caching loop. */
    method MatchAnyCached(pg: Page, ctx: Path, m: Matcher, e: Path) returns (r: bool)
      requires m.Combine? && !m.c.First() && WellFormedMatcher(m)
      requires Sound(pg, ctx, m, cache, dirruns, cachedruns, true)
      modifies this`cache
      ensures r == Holds(pg, ctx, m, e)
      ensures Sound(pg, ctx, m, cache, dirruns, cachedruns, !r)
      ensures Touched(old(cache), cache, e, Names(m), dirruns)
      decreases m, 1
    {
      var dir := m.c.Dir();
      var x := e;
      var next := Step(dir, x);
      while next.Some?
        invariant next == Step(dir, x) && (x == e || Before(x, e))
        invariant Sound(pg, ctx, m.inner, cache, dirruns, cachedruns, true)
        invariant WalkSound(pg, ctx, m, cache, dirruns, cachedruns, e, x)
        invariant Touched(old(cache), cache, e, Names(m), dirruns)
        invariant Reaches(pg, ctx, m.inner, m.c, m.base, e) == Reaches(pg, ctx, m.inner, m.c, m.base, x)
        decreases Remaining(dir, x)
      {
        StepBack(dir, x, e);
        WalkOn(pg, ctx, m, cache, dirruns, cachedruns, e, x, next.value);
        x := next.value;
        if Eligible(pg, m.c, m.base, x) {
          var slot := Slot(x, dir);
          if slot in cache && cache[slot].run == dirruns && cache[slot].name == m.name {
            var data := cache[slot].verdict;
            if data == Yes || data == No(cachedruns) {
              r := data == Yes;
              if r {
                StrongIsWeak(pg, ctx, m.inner, cache, dirruns, cachedruns);
              }
              WalkEnds(pg, ctx, m, cache, dirruns, cachedruns, e, x, r);
              return;
            }
          } else {
            ghost var before := cache;
            r := AskAndMark(pg, ctx, m, e, x);
            TouchedTwice(old(cache), before, cache, e, Names(m), dirruns);
            if r {
              WalkEnds(pg, ctx, m, cache, dirruns, cachedruns, e, x, r);
              return;
            }
          }
        }
        next := Step(dir, x);
      }
      r := false;
      WalkEnds(pg, ctx, m, cache, dirruns, cachedruns, e, x, r);
    }
  }
}
