/** Which functions a callback list holds, and what its flags promise over whole runs. */
module CallbackMembers {
  import opened Optional
  import opened Lists
  import opened Callbacks
  import opened CallbackPasses

  // ---- Removing ----

  /** Firing or not, exactly the entries of other functions stay, in the order of their
      registration. */
  lemma RemoveLeavesOthers(s: State, fn: nat)
    requires Ok(s) && s.list.Some?
    ensures var s' := Remove(s, fn);
      && s'.list.Some?
      && (forall e :: e in s'.list.value <==> e in s.list.value && e.fn != fn)
      && (forall i, j | 0 <= i < j < |s'.list.value| :: s'.list.value[i].id < s'.list.value[j].id)
      && s'.log == s.log && s'.begun == s.begun && (!s.firing ==> s' == s.(list := s'.list))
  {
    RemoveOk(s, fn);
    forall e ensures e in Remove(s, fn).list.value <==> e in s.list.value && e.fn != fn {
      FilterMembers(s.list.value, OtherThan(fn), e);
    }
  }

  /** The list has no entry of `fn`. */
  predicate Absent(s: State, fn: nat) {
    s.list.Some? ==> forall e | e in s.list.value :: e.fn != fn
  }

  /** Neither has the new part of the log. */
  predicate Uncalled(a: State, b: State, fn: nat) {
    && Absent(b, fn) && |a.log| <= |b.log|
    && b.log[..|a.log|] == a.log
    && forall i | |a.log| <= i < |b.log| :: b.log[i].entry.fn != fn
  }

  lemma {:induction false} LoopCallsOthers(s: State, fn: nat)
    requires s.begun != [] && CursorOk(s) && s.firingIndex >= 0 && s.firingStart == 0 && Absent(s, fn)
    ensures Uncalled(s, Loop(s), fn)
    decreases QueueLength(s), 1
  {
    if !(s.list.Some? && s.firingIndex < s.firingLength) {
      FinishCallsOthers(s, fn);
    }
  }

  lemma {:induction false} FinishCallsOthers(s: State, fn: nat)
    requires s.begun != [] && s.firingStart == 0 && Absent(s, fn)
    ensures Uncalled(s, Finish(s), fn)
    decreases QueueLength(s), 0
  {
    if s.list.Some? && s.stack.Some? && s.stack.value != [] {
      LoopCallsOthers(BeginPass(s.(firing := false, stack := Some(s.stack.value[1..])), s.stack.value[0], false), fn);
    }
  }

  /** A list has its old functions and the added ones. */
  lemma {:induction false} PushAllHolds(list: seq<Entry>, nextId: nat, fns: seq<nat>, unique: bool)
    ensures var r := PushAll(list, nextId, fns, unique).0;
      forall fn :: Has(r, fn) <==> Has(list, fn) || fn in fns
    decreases |fns|
  {
    if fns != [] {
      var rest := fns[1..];
      assert fns == [fns[0]] + rest;
      if unique && Has(list, fns[0]) {
        PushAllHolds(list, nextId, rest, unique);
      } else {
        var longer := list + [Entry(fns[0], nextId)];
        PushAllHolds(longer, nextId + 1, rest, unique);
        forall fn ensures Has(longer, fn) <==> Has(list, fn) || fn == fns[0] {
          assert longer[|list|].fn == fns[0];
          assert forall i | 0 <= i < |list| :: longer[i] == list[i];
        }
      }
    }
  }

  lemma AddCallsOthers(s: State, fns: seq<nat>, fn: nat)
    requires Ok(s) && Absent(s, fn) && fn !in fns
    ensures Uncalled(s, Add(s, fns), fn)
  {
    hide PushAll, Loop, Finish, LogOk, Ordered;
    if s.list.Some? {
      PushAllHolds(s.list.value, s.nextId, fns, s.flags.unique);
      var (list, nextId) := PushAll(s.list.value, s.nextId, fns, s.flags.unique);
      assert !Has(s.list.value, fn);
      assert !Has(list, fn);
      if !s.firing && s.memory.Some? {
        var s' := s.(list := Some(list), nextId := nextId, firingStart := |s.list.value|);
        LoopCallsOthers(BeginPass(s', s.memory.value, true), fn);
      }
    }
  }

  lemma StepCallsOthers(s: State, op: Op, fn: nat)
    requires Ok(s) && Absent(s, fn) && (op.AddOp? ==> fn !in op.fns)
    ensures Uncalled(s, Apply(s, op), fn)
  {
    hide Loop, Finish, Ordered, LogOk, Filter;
    match op
    case AddOp(fns) => AddCallsOthers(s, fns, fn);
    case RemoveOp(gone) =>
      if s.list.Some? {
        RemoveLeavesOthers(s, gone);
      }
    case FireOp(data) =>
      if Accepts(s) && !s.firing {
        LoopCallsOthers(BeginPass(s, data, false), fn);
      }
    case LockOp =>
    case DisableOp =>
    case Returned(isFalse) =>
      if s.firing {
        if isFalse && s.flags.stopOnFalse {
          FinishCallsOthers(s.(memory := None), fn);
        } else {
          LoopCallsOthers(s.(firingIndex := s.firingIndex + 1), fn);
        }
      }
  }

  lemma {:induction false} AbsentIsNotCalled(s: State, fn: nat, ops: seq<Op>)
    requires Ok(s) && Absent(s, fn) && forall i | 0 <= i < |ops| && ops[i].AddOp? :: fn !in ops[i].fns
    ensures Uncalled(s, Run(s, ops), fn)
    decreases |ops|
  {
    if ops != [] {
      var init := ops[..|ops| - 1];
      AbsentIsNotCalled(s, fn, init);
      var before := Run(s, init);
      hide Apply, Ok, Absent;
      StepCallsOthers(before, ops[|ops| - 1], fn);
      var after := Run(s, ops);
      forall i | |s.log| <= i < |after.log| ensures after.log[i].entry.fn != fn {
        if i < |before.log| {
          assert after.log[..|before.log|][i] == before.log[i];
        }
      }
      assert after.log[..|s.log|] == after.log[..|before.log|][..|s.log|];
    }
  }

  /** Once removed, wherever the list then is in its life, a function is not called again unless
      it is added again. */
  lemma RemovedIsNotCalled(s: State, fn: nat, ops: seq<Op>)
    requires Ok(s) && forall i | 0 <= i < |ops| && ops[i].AddOp? :: fn !in ops[i].fns
    ensures var s' := Run(s, [RemoveOp(fn)] + ops);
      && |s.log| <= |s'.log| && s'.log[..|s.log|] == s.log
      && forall i | |s.log| <= i < |s'.log| :: s'.log[i].entry.fn != fn
  {
    RunAppend(s, [RemoveOp(fn)], ops);
    assert [RemoveOp(fn)][..0] == [];
    RemoveOk(s, fn);
    if s.list.Some? {
      RemoveLeavesOthers(s, fn);
    }
    AbsentIsNotCalled(Remove(s, fn), fn, ops);
  }

  lemma {:induction false} RunAppend(s: State, a: seq<Op>, b: seq<Op>)
    requires Ok(s)
    ensures Run(s, a + b) == Run(Run(s, a), b)
    decreases |b|
  {
    hide Ok, Apply;
    if b == [] {
      assert a + b == a;
    } else {
      var init := b[..|b| - 1];
      assert (a + b)[..|a + b| - 1] == a + init;
      RunAppend(s, a, init);
    }
  }

  // ---- Adding ----

  /** Entries for the functions, in order, numbered from `id`. */
  function EntriesFrom(fns: seq<nat>, id: nat): (r: seq<Entry>)
    ensures |r| == |fns| && forall i | 0 <= i < |fns| :: r[i] == Entry(fns[i], id + i)
  {
    seq(|fns|, i requires 0 <= i < |fns| => Entry(fns[i], id + i))
  }

  /** Without `unique` every function gets a new entry, in order. */
  lemma {:induction false} PushAllPlain(list: seq<Entry>, nextId: nat, fns: seq<nat>)
    ensures PushAll(list, nextId, fns, false) == (list + EntriesFrom(fns, nextId), nextId + |fns|)
    decreases |fns|
  {
    if fns == [] {
      assert list + EntriesFrom(fns, nextId) == list;
    } else {
      PushAllPlain(list + [Entry(fns[0], nextId)], nextId + 1, fns[1..]);
      assert list + EntriesFrom(fns, nextId)
          == (list + [Entry(fns[0], nextId)]) + EntriesFrom(fns[1..], nextId + 1);
    }
  }

  /** The last function of an `add` gets an entry behind those of the others, unless the list is
      unique and has it by then. */
  lemma {:induction false} LastIsPushed(list: seq<Entry>, nextId: nat, fns: seq<nat>, fn: nat, unique: bool)
    ensures var (r, next) := PushAll(list, nextId, fns, unique);
      PushAll(list, nextId, fns + [fn], unique) ==
        if unique && exists e :: e in r && e.fn == fn then (r, next) else (r + [Entry(fn, next)], next + 1)
    decreases |fns|
  {
    var (r, next) := PushAll(list, nextId, fns, unique);
    assert Has(r, fn) <==> exists e :: e in r && e.fn == fn;
    if fns == [] {
      assert fns + [fn] == [fn] && [fn][1..] == [];
      assert PushAll(list, nextId, [fn], unique) ==
        if unique && Has(list, fn) then (list, nextId) else PushAll(list + [Entry(fn, nextId)], nextId + 1, [], unique);
    } else {
      assert (fns + [fn])[0] == fns[0] && (fns + [fn])[1..] == fns[1..] + [fn];
      if unique && Has(list, fns[0]) {
        LastIsPushed(list, nextId, fns[1..], fn, unique);
      } else {
        LastIsPushed(list + [Entry(fns[0], nextId)], nextId + 1, fns[1..], fn, unique);
      }
    }
  }

  predicate NoTwice(list: seq<Entry>) {
    forall i, j | 0 <= i < j < |list| :: list[i].fn != list[j].fn
  }

  lemma {:induction false} UniqueAdds(list: seq<Entry>, nextId: nat, fns: seq<nat>)
    requires NoTwice(list)
    ensures NoTwice(PushAll(list, nextId, fns, true).0)
    decreases |fns|
  {
    if fns != [] {
      if Has(list, fns[0]) {
        UniqueAdds(list, nextId, fns[1..]);
      } else {
        UniqueAdds(list + [Entry(fns[0], nextId)], nextId + 1, fns[1..]);
      }
    }
  }

  // ---- What the flags promise ----

  /** `once`: at most one fire is let through.  No `memory`: nothing is replayed.  `memory`, and
      returns do not count: the last fire is remembered as long as the list is on.  `unique`: no
      function has two entries.  Replays repeat the last fire let through. */
  ghost predicate FlagsObeyed(s: State) {
    && (s.flags.once ==> |Delivered(s.begun)| <= 1)
    && (!s.flags.memory ==> s.memory.None? && forall i | 0 <= i < |s.begun| :: !s.begun[i].replay)
    && (s.flags.memory && !s.flags.stopOnFalse && s.fired && s.list.Some? ==> s.memory.Some?)
    && (s.begun != [] ==> Delivered(s.begun) != [] && Current(s) == Delivered(s.begun)[|Delivered(s.begun)| - 1])
    && (s.flags.unique && s.list.Some? ==> NoTwice(s.list.value))
  }

  lemma {:induction false} LoopObeys(s: State)
    requires Midway(s) && s.firingIndex >= 0 && FlagsObeyed(s)
    ensures FlagsObeyed(Loop(s))
    decreases QueueLength(s), 1
  {
    hide Ordered, LogOk;
    if !(s.list.Some? && s.firingIndex < s.firingLength) {
      FinishObeys(s);
    }
  }

  lemma {:induction false} FinishObeys(s: State)
    requires Midway(s) && FlagsObeyed(s)
    ensures FlagsObeyed(Finish(s))
    decreases QueueLength(s), 0
  {
    hide Ordered, Delivered;
    if s.list.Some? && s.stack.Some? && s.stack.value != [] {
      DeliveredNext(s.begun, Pass(s.stack.value[0], false));
      LoopObeys(BeginPass(s.(firing := false, stack := Some(s.stack.value[1..])), s.stack.value[0], false));
    }
  }

  lemma AddObeys(s: State, fns: seq<nat>)
    requires Ok(s) && FlagsObeyed(s)
    ensures FlagsObeyed(Add(s, fns))
  {
    hide Loop, Finish, NoTwice, Delivered;
    if s.list.Some? {
      PushAllOrdered(s.list.value, s.nextId, fns, s.flags.unique);
      var (list, nextId) := PushAll(s.list.value, s.nextId, fns, s.flags.unique);
      if s.flags.unique {
        UniqueAdds(s.list.value, s.nextId, fns);
      }
      if !s.firing && s.memory.Some? {
        DeliveredNext(s.begun, Pass(s.memory.value, true));
        LoopObeys(BeginPass(s.(list := Some(list), nextId := nextId, firingStart := |s.list.value|), s.memory.value, true));
      }
    }
  }

  lemma {:induction false} FilterNoTwice(list: seq<Entry>, keep: Entry -> bool)
    requires NoTwice(list)
    ensures NoTwice(Filter(list, keep))
  {
    if list != [] {
      FilterNoTwice(list[1..], keep);
      var rest := Filter(list[1..], keep);
      forall j | 0 <= j < |rest| ensures list[0].fn != rest[j].fn {
        FilterMembers(list[1..], keep, rest[j]);
      }
    }
  }

  lemma StepObeys(s: State, op: Op)
    requires Ok(s) && FlagsObeyed(s)
    ensures FlagsObeyed(Apply(s, op))
  {
    hide Loop, Finish, Ordered, NoTwice, Delivered, Filter;
    match op
    case AddOp(fns) => AddObeys(s, fns);
    case RemoveOp(fn) =>
      if s.list.Some? && s.flags.unique {
        FilterNoTwice(s.list.value, OtherThan(fn));
      }
    case FireOp(data) =>
      if Accepts(s) && !s.firing {
        DeliveredNext(s.begun, Pass(data, false));
        NothingDelivered();
        LoopObeys(BeginPass(s, data, false));
      }
    case LockOp =>
    case DisableOp =>
    case Returned(isFalse) =>
      if s.firing {
        if isFalse && s.flags.stopOnFalse {
          FinishObeys(s.(memory := None));
        } else {
          LoopObeys(s.(firingIndex := s.firingIndex + 1));
        }
      }
  }

  lemma NothingDelivered()
    ensures Delivered([]) == []
  {
  }

  /** The flags are obeyed in every run. */
  lemma {:induction false} RunObeys(flags: Flags, ops: seq<Op>)
    ensures var s := Run(Init(flags), ops);
      && (flags.once ==> |Delivered(s.begun)| <= 1)
      && (!flags.memory ==> s.memory.None? && forall i | 0 <= i < |s.begun| :: !s.begun[i].replay)
      && (flags.memory && !flags.stopOnFalse && s.fired && s.list.Some? ==> s.memory.Some?)
      && (s.begun != [] ==> Delivered(s.begun) != [] && Current(s) == Delivered(s.begun)[|Delivered(s.begun)| - 1])
      && (flags.unique && s.list.Some? ==>
            forall i, j | 0 <= i < j < |s.list.value| :: s.list.value[i].fn != s.list.value[j].fn)
    ensures FlagsObeyed(Run(Init(flags), ops))
    decreases |ops|
  {
    hide Apply, Ok, Delivered;
    if ops == [] {
      NothingDelivered();
    } else {
      RunObeys(flags, ops[..|ops| - 1]);
      StepObeys(Run(Init(flags), ops[..|ops| - 1]), ops[|ops| - 1]);
    }
  }

  /** A `false` that counts makes the list forget: with no fire waiting it is at rest, a list that
      cannot fire again is disabled, and functions added later are not called. */
  lemma EarlyStopForgets(s: State, fns: seq<nat>)
    requires Ok(s) && s.firing && s.flags.stopOnFalse && (s.stack.Some? ==> s.stack.value == [])
    ensures var s' := Return(s, true);
      && !s'.firing && s'.memory.None? && s'.log == s.log && (s.stack.None? ==> s'.list.None?)
      && Add(s', fns).log == s.log
  {
  }

  /** A disabled list never calls anything again, except that it lets the running callback end. */
  lemma {:induction false} DisabledIsSilent(s: State, ops: seq<Op>)
    requires Ok(s)
    ensures var s' := Run(Disable(s), ops);
      s'.list.None? && s'.log == s.log && s'.begun == s.begun
    decreases |ops|
  {
    hide Ok, Apply;
    OffOk(s);
    if ops != [] {
      DisabledIsSilent(s, ops[..|ops| - 1]);
      DisabledStays(Run(Disable(s), ops[..|ops| - 1]), ops[|ops| - 1]);
    }
  }

  lemma DisabledStays(s: State, op: Op)
    requires Ok(s) && s.list.None?
    ensures var s' := Apply(s, op); s'.list.None? && s'.log == s.log && s'.begun == s.begun
  {
    hide Ordered, LogOk;
    if op.Returned? && s.firing {
      assert Finish(s).list.None? && Finish(s.(memory := None)).list.None?;
      assert Loop(s.(firingIndex := s.firingIndex + 1)) == Finish(s.(firingIndex := s.firingIndex + 1));
    }
  }
}
