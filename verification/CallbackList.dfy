/** The object that `jQuery.Callbacks` returns: the closure variables as fields, and the
    methods that update them in place, each proved to be its step of the machine. */
module CallbackList {
  import opened Optional
  import opened Lists
  import C = Callbacks

  class CallbackList {
    const flags: C.Flags
    var list: Option<seq<C.Entry>>
    var stack: Option<seq<C.Data>>
    var memory: Option<C.Data>
    var fired: bool
    var firing: bool
    var firingIndex: int
    var firingLength: int
    var firingStart: nat
    var nextId: nat
    ghost var begun: seq<C.Pass>
    ghost var log: seq<C.Call>

    ghost function View(): C.State
      reads this
    {
      C.State(flags, list, stack, memory, fired, firing, firingIndex, firingLength, firingStart, nextId, begun, log)
    }

    ghost predicate Valid()
      reads this
    {
      C.Ok(View())
    }

    constructor (flags: C.Flags)
      ensures View() == C.Init(flags) && Valid()
    {
      this.flags := flags;
      list, stack, memory := Some([]), if flags.once then None else Some([]), None;
      fired, firing := false, false;
      firingIndex, firingLength, firingStart, nextId := 0, 0, 0, 0;
      begun, log := [], [];
    }

    /** `fire`: set up the pass and enter the loop. */
    method Fire(data: C.Data, ghost replay: bool)
      requires list.Some? && firingStart <= |list.value|
      modifies this
      ensures View() == C.Loop(C.BeginPass(old(View()), data, replay))
      decreases C.QueueLength(View()), 3
    {
      hide C.Loop, C.Finish;
      memory := if flags.memory then Some(data) else None;
      fired := true;
      firingIndex := firingStart;
      firingStart := 0;
      firingLength := |list.value|;
      firing := true;
      begun := begun + [C.Pass(data, replay)];
      LoopTest();
    }

    /** The test of the loop in `fire`: hand control to the callback at the cursor, or go on
        behind the loop. */
    method LoopTest()
      requires begun != [] && C.CursorOk(View()) && firingIndex >= 0 && firingStart == 0
      modifies this
      ensures View() == C.Loop(old(View()))
      decreases C.QueueLength(View()), 2
    {
      if list.Some? && firingIndex < firingLength {
        log := log + [C.Call(list.value[firingIndex], C.Current(View()), |begun| - 1)];
      } else {
        AfterLoop();
      }
    }

    method AfterLoop()
      requires begun != [] && firingStart == 0
      modifies this
      ensures View() == C.Finish(old(View()))
      decreases C.QueueLength(View()), 1
    {
      firing := false;
      if list.Some? {
        if stack.Some? {
          if stack.value != [] {
            var data := stack.value[0];
            stack := Some(stack.value[1..]);
            Fire(data, false);
          }
        } else if memory.Some? {
          list := Some([]);
        } else {
          Disable();
        }
      }
    }

    /** The callback at the cursor returns to the loop. */
    method Resume(isFalse: bool)
      requires Valid()
      modifies this
      ensures Valid() && View() == C.Return(old(View()), isFalse)
    {
      C.KeepsOk(View(), C.Returned(isFalse));
      if firing {
        if isFalse && flags.stopOnFalse {
          memory := None;
          AfterLoop();
        } else {
          firingIndex := firingIndex + 1;
          LoopTest();
        }
      }
    }

    /** The loop of `add` over its arguments. */
    method Push(fns: seq<nat>)
      requires list.Some?
      modifies this`list, this`nextId
      ensures list.Some?
      ensures (list.value, nextId) == C.PushAll(old(list).value, old(nextId), fns, flags.unique)
    {
      ghost var all := C.PushAll(list.value, nextId, fns, flags.unique);
      var i := 0;
      while i < |fns|
        invariant 0 <= i <= |fns| && list.Some?
        invariant C.PushAll(list.value, nextId, fns[i..], flags.unique) == all
      {
        assert fns[i..][1..] == fns[i + 1..];
        if !flags.unique || !C.Has(list.value, fns[i]) {
          list := Some(list.value + [C.Entry(fns[i], nextId)]);
          nextId := nextId + 1;
        }
        i := i + 1;
      }
    }

    method Add(fns: seq<nat>)
      requires Valid()
      modifies this
      ensures Valid() && View() == C.Add(old(View()), fns)
    {
      hide C.PushAll, C.Loop, C.Finish;
      C.KeepsOk(View(), C.AddOp(fns));
      if list.Some? {
        var start := |list.value|;
        Push(fns);
        if firing {
          firingLength := |list.value|;
        } else if memory.Some? {
          firingStart := start;
          Fire(memory.value, true);
        }
      }
    }

    /** `jQuery.inArray( fn, list, index )` */
    method InArray(fn: nat, start: nat) returns (index: int)
      requires list.Some? && start <= |list.value|
      ensures index == -1 ==> forall k | start <= k < |list.value| :: list.value[k].fn != fn
      ensures index != -1 ==> start <= index < |list.value| && list.value[index].fn == fn
      ensures forall k | start <= k < index :: list.value[k].fn != fn
    {
      index := start;
      while index < |list.value|
        invariant start <= index <= |list.value|
        invariant forall k | start <= k < index :: list.value[k].fn != fn
      {
        if list.value[index].fn == fn {
          return;
        }
        index := index + 1;
      }
      index := -1;
    }

    /** `list.splice( index, 1 )`, and the correction of the firing indexes. */
    method SpliceAt(index: nat)
      requires list.Some? && index < |list.value| && (firing ==> firingLength == |list.value|)
      modifies this`list, this`firingIndex, this`firingLength
      ensures list == Some(old(list).value[..index] + old(list).value[index + 1..])
      ensures firing ==> firingLength == |list.value|
      ensures firingIndex == old(firingIndex) - (if firing && index <= old(firingIndex) then 1 else 0)
      ensures !firing ==> firingLength == old(firingLength)
    {
      list := Some(list.value[..index] + list.value[index + 1..]);
      if firing {
        if index <= firingLength {
          firingLength := firingLength - 1;
        }
        if index <= firingIndex {
          firingIndex := firingIndex - 1;
        }
      }
    }

    /** `remove` of one function. */
    method Remove(fn: nat)
      requires Valid()
      modifies this
      ensures Valid() && View() == C.Remove(old(View()), fn)
    {
      C.KeepsOk(View(), C.RemoveOp(fn));
      if list.Some? {
        FilterShorter(list.value, C.OtherThan(fn));
        RemoveEach(fn);
      }
    }

    /** The first `k` of the entries `before` have been dealt with. */
    ghost predicate Removing(before: seq<C.Entry>, cursor: int, length: int, k: nat, fn: nat)
      reads this
    {
      && list.Some? && k <= |before|
      && list.value == Filter(before[..k], C.OtherThan(fn)) + before[k..]
      && (firing ==>
            && firingLength == |list.value| && -1 <= cursor < |before|
            && firingIndex == cursor - Gone(before, Least(k, cursor + 1), fn))
      && (!firing ==> firingIndex == cursor && firingLength == length)
    }

    /** Search from the last index and splice, until nothing is found. */
    method RemoveEach(fn: nat)
      requires list.Some? && (firing ==> firingLength == |list.value| && -1 <= firingIndex < |list.value|)
      modifies this`list, this`firingIndex, this`firingLength
      ensures list == Some(Filter(old(list).value, C.OtherThan(fn)))
      ensures firing ==> firingLength == |list.value|
      ensures firing ==> firingIndex == old(firingIndex) - Gone(old(list).value, old(firingIndex) + 1, fn)
      ensures !firing ==> firingIndex == old(firingIndex) && firingLength == old(firingLength)
    {
      ghost var before := list.value;
      ghost var k := 0;
      RemovingStarts(fn);
      hide Filter, Removing, Gone;
      var index := InArray(fn, 0);
      ghost var from: nat := 0;
      while index > -1
        invariant list.Some? && Removing(before, old(firingIndex), old(firingLength), k, fn) && from == Kept(before, k, fn)
        invariant index == -1 ==> forall j | from <= j < |list.value| :: list.value[j].fn != fn
        invariant index != -1 ==> from <= index < |list.value| && list.value[index].fn == fn
        invariant forall j | from <= j < index :: list.value[j].fn != fn
        decreases |before| - k
      {
        k := RemoveNext(before, old(firingIndex), old(firingLength), k, fn, index);
        from := index;
        index := InArray(fn, index);
      }
      RemovingEnds(before, old(firingIndex), old(firingLength), k, fn);
    }

    lemma RemovingStarts(fn: nat)
      requires list.Some? && (firing ==> firingLength == |list.value| && -1 <= firingIndex < |list.value|)
      ensures Removing(list.value, firingIndex, firingLength, 0, fn) && Kept(list.value, 0, fn) == 0
    {
      assert list.value[..0] == [] && list.value[0..] == list.value;
    }

    lemma RemovingEnds(before: seq<C.Entry>, cursor: int, length: int, k: nat, fn: nat)
      requires Removing(before, cursor, length, k, fn)
      requires forall j | Kept(before, k, fn) <= j < |list.value| :: list.value[j].fn != fn
      ensures list == Some(Filter(before, C.OtherThan(fn)))
      ensures firing ==> firingLength == |list.value| && -1 <= cursor < |before|
      ensures firing ==> firingIndex == cursor - Gone(before, cursor + 1, fn)
      ensures !firing ==> firingIndex == cursor && firingLength == length
    {
      hide Filter;
      NothingLeft(before, k, fn, list.value);
      if firing && k < cursor + 1 {
        NoneGone(before, k, cursor + 1, fn);
      }
    }

    /** Take out the entry just found. */
    method RemoveNext(ghost before: seq<C.Entry>, ghost cursor: int, ghost length: int, ghost k: nat, fn: nat, index: nat)
      returns (ghost k': nat)
      requires Removing(before, cursor, length, k, fn)
      requires Kept(before, k, fn) <= index < |list.value| && list.value[index].fn == fn
      requires forall j | Kept(before, k, fn) <= j < index :: list.value[j].fn != fn
      modifies this`list, this`firingIndex, this`firingLength
      ensures list.Some? && Removing(before, cursor, length, k', fn) && k < k' <= |before| && index == Kept(before, k', fn)
      ensures index <= |list.value|
    {
      ghost var p := k + (index - Kept(before, k, fn));
      SpliceNext(before, k, p, fn, list.value, index);
      if firing {
        CursorSide(before, k, p, cursor, fn, index);
      }
      SpliceAt(index);
      k' := p + 1;
    }

    method Empty()
      modifies this
      ensures View() == old(View()).(list := Some([]), firingLength := 0)
    {
      list := Some([]);
      firingLength := 0;
    }

    method Disable()
      modifies this
      ensures View() == C.Disable(old(View()))
      ensures old(Valid()) ==> Valid()
    {
      list, stack, memory := None, None, None;
    }

    method Lock()
      requires Valid()
      modifies this
      ensures Valid() && View() == C.Lock(old(View()))
    {
      stack := None;
      if memory.None? {
        Disable();
      }
    }

    method FireWith(data: C.Data)
      requires Valid()
      modifies this
      ensures Valid() && View() == C.FireWith(old(View()), data)
    {
      C.KeepsOk(View(), C.FireOp(data));
      if list.Some? && (!fired || stack.Some?) {
        if firing {
          stack := Some(stack.value + [data]);
        } else {
          Fire(data, false);
        }
      }
    }
  }

  // ---- Counting what `remove` has taken out of the first `k` entries ----

  function Kept(list: seq<C.Entry>, k: nat, fn: nat): nat
    requires k <= |list|
  {
    |Filter(list[..k], C.OtherThan(fn))|
  }

  function Least(a: nat, b: nat): nat {
    if a < b then a else b
  }

  function Gone(list: seq<C.Entry>, k: nat, fn: nat): int
    requires k <= |list|
  {
    k - Kept(list, k, fn)
  }

  lemma KeptSplit(list: seq<C.Entry>, j: nat, k: nat, fn: nat)
    requires j <= k <= |list|
    ensures Filter(list[..k], C.OtherThan(fn)) == Filter(list[..j], C.OtherThan(fn)) + Filter(list[j..k], C.OtherThan(fn))
    ensures |Filter(list[j..k], C.OtherThan(fn))| <= k - j
  {
    assert list[..k] == list[..j] + list[j..k];
    FilterAppend(list[..j], list[j..k], C.OtherThan(fn));
    FilterShorter(list[j..k], C.OtherThan(fn));
  }

  lemma {:induction false} FilterShorter<T>(s: seq<T>, keep: T -> bool)
    ensures |Filter(s, keep)| <= |s|
  {
    if s != [] {
      FilterShorter(s[1..], keep);
    }
  }

  /** The entries before the one found are all kept. */
  lemma SkippedAreKept(before: seq<C.Entry>, k: nat, p: nat, fn: nat)
    requires k <= p < |before| && before[p].fn == fn && forall i | k <= i < p :: before[i].fn != fn
    ensures Filter(before[..p + 1], C.OtherThan(fn)) == Filter(before[..k], C.OtherThan(fn)) + before[k..p]
  {
    FilterAll(before[k..p], C.OtherThan(fn));
    KeptSplit(before, k, p, fn);
    assert before[..p + 1][..p] == before[..p];
    FilterLast(before[..p + 1], C.OtherThan(fn));
  }

  /** The entry found is the next of its function in the original list. */
  lemma SpliceNext(before: seq<C.Entry>, k: nat, p: nat, fn: nat, now: seq<C.Entry>, index: nat)
    requires k <= p && k <= |before| && Kept(before, k, fn) <= index < |now|
    requires now == Filter(before[..k], C.OtherThan(fn)) + before[k..]
    requires p == k + (index - Kept(before, k, fn))
    requires now[index].fn == fn && forall j | Kept(before, k, fn) <= j < index :: now[j].fn != fn
    ensures p < |before| && before[p].fn == fn
    ensures now[..index] + now[index + 1..] == Filter(before[..p + 1], C.OtherThan(fn)) + before[p + 1..]
    ensures index == Kept(before, p + 1, fn) == Kept(before, k, fn) + (p - k)
  {
    var kept := Filter(before[..k], C.OtherThan(fn));
    forall i | k <= i <= p ensures before[i] == now[|kept| + (i - k)] {}
    SkippedAreKept(before, k, p, fn);
    assert now[..index] == kept + before[k..p];
    assert now[index + 1..] == before[p + 1..];
  }

  /** Taking out the entry at `p`, a survivor of none between `k` and `p`. */
  lemma OneMoreGone(before: seq<C.Entry>, k: nat, p: nat, fn: nat)
    requires k <= p < |before| && Kept(before, p + 1, fn) == Kept(before, k, fn) + (p - k)
    ensures Gone(before, p + 1, fn) == Gone(before, k, fn) + 1
  {
  }

  /** Nothing of that function lies between `k` and `p`, so nothing is gone up to the cursor. */
  lemma NoneBetween(before: seq<C.Entry>, k: nat, upto: nat, p: nat, fn: nat)
    requires k <= upto <= p < |before| && before[p].fn == fn
    requires Kept(before, p + 1, fn) == Kept(before, k, fn) + (p - k)
    ensures Gone(before, upto, fn) == Gone(before, k, fn)
  {
    KeptSplit(before, k, upto, fn);
    KeptSplit(before, upto, p, fn);
    assert before[..p + 1][..p] == before[..p];
    FilterLast(before[..p + 1], C.OtherThan(fn));
  }

  lemma GoneGrows(before: seq<C.Entry>, j: nat, k: nat, fn: nat)
    requires j <= k <= |before|
    ensures j - Gone(before, j, fn) <= k - Gone(before, k, fn)
  {
    KeptSplit(before, j, k, fn);
  }

  /** Comparing the index with the cursor tells whether the entry was at or before it. */
  lemma CursorSide(before: seq<C.Entry>, k: nat, p: nat, cursor: int, fn: nat, index: nat)
    requires k <= p < |before| && -1 <= cursor < |before| && before[p].fn == fn
    requires index == Kept(before, p + 1, fn) == Kept(before, k, fn) + (p - k)
    ensures var upto, upto' := Least(k, cursor + 1), Least(p + 1, cursor + 1);
      && (index <= cursor - Gone(before, upto, fn) <==> p <= cursor)
      && Gone(before, upto', fn) == Gone(before, upto, fn) + (if p <= cursor then 1 else 0)
  {
    if p <= cursor {
      OneMoreGone(before, k, p, fn);
    } else if k < cursor + 1 {
      NoneBetween(before, k, cursor + 1, p, fn);
    } else {
      GoneGrows(before, cursor + 1, k, fn);
    }
  }

  lemma NoneGone(before: seq<C.Entry>, k: nat, upto: nat, fn: nat)
    requires k <= upto <= |before| && forall j | k <= j < |before| :: before[j].fn != fn
    ensures Gone(before, upto, fn) == Gone(before, k, fn)
  {
    KeptSplit(before, k, upto, fn);
    FilterAll(before[k..upto], C.OtherThan(fn));
  }

  lemma NothingLeft(before: seq<C.Entry>, k: nat, fn: nat, now: seq<C.Entry>)
    requires k <= |before| && now == Filter(before[..k], C.OtherThan(fn)) + before[k..]
    requires forall j | Kept(before, k, fn) <= j < |now| :: now[j].fn != fn
    ensures now == Filter(before, C.OtherThan(fn))
    ensures forall j | k <= j < |before| :: before[j].fn != fn
  {
    hide Filter;
    forall j | k <= j < |before| ensures before[j].fn != fn {
      assert before[j] == now[Kept(before, k, fn) + (j - k)];
    }
    var rest := before[k..];
    assert forall i | 0 <= i < |rest| :: rest[i] == before[k + i];
    FilterAll(rest, C.OtherThan(fn));
    assert before == before[..k] + rest;
    FilterAppend(before[..k], rest, C.OtherThan(fn));
  }
}
