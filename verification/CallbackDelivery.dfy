/** What is heard of every fire on a repeatable list to which functions are only added. */
module CallbackDelivery {
  import opened Optional
  import opened Lists
  import opened Callbacks
  import opened CallbackPasses
  import opened CallbackMembers

  /** Adds, fires, and returns that end no pass early. */
  predicate Plain(flags: Flags, op: Op) {
    op.AddOp? || op.FireOp? || (op.Returned? && !(op.isFalse && flags.stopOnFalse))
  }

  predicate AllPlain(flags: Flags, ops: seq<Op>) {
    forall i | 0 <= i < |ops| :: Plain(flags, ops[i])
  }

  function FireData(ops: seq<Op>): seq<Data> {
    if ops == [] then []
    else
      var last := ops[|ops| - 1];
      FireData(ops[..|ops| - 1]) + (if last.FireOp? then [last.data] else [])
  }

  lemma {:induction false} LoopKeepsLists(s: State)
    requires Midway(s) && s.firingIndex >= 0 && s.list.Some? && s.stack.Some?
    ensures Loop(s).list == s.list && Loop(s).stack.Some?
    decreases QueueLength(s), 1
  {
    hide Ordered, LogOk;
    if !(s.firingIndex < s.firingLength) {
      FinishKeepsLists(s);
    }
  }

  lemma {:induction false} FinishKeepsLists(s: State)
    requires Midway(s) && s.list.Some? && s.stack.Some?
    ensures Finish(s).list == s.list && Finish(s).stack.Some?
    decreases QueueLength(s), 0
  {
    hide Ordered;
    if s.stack.value != [] {
      LoopKeepsLists(BeginPass(s.(firing := false, stack := Some(s.stack.value[1..])), s.stack.value[0], false));
    }
  }

  predicate Repeatable(s: State) {
    s.list.Some? && s.stack.Some?
  }

  lemma PlainKeepsLists(s: State, op: Op)
    requires Ok(s) && Repeatable(s) && Plain(s.flags, op)
    ensures Repeatable(Apply(s, op)) && s.list.value <= Apply(s, op).list.value
  {
    hide Ordered, Loop, Finish, PushAll;
    match op
    case AddOp(fns) =>
      PushAllOrdered(s.list.value, s.nextId, fns, s.flags.unique);
      var (list, nextId) := PushAll(s.list.value, s.nextId, fns, s.flags.unique);
      if !s.firing && s.memory.Some? {
        LoopKeepsLists(BeginPass(s.(list := Some(list), nextId := nextId, firingStart := |s.list.value|), s.memory.value, true));
      }
    case FireOp(data) =>
      if !s.firing {
        LoopKeepsLists(BeginPass(s, data, false));
      }
    case Returned(isFalse) =>
      if s.firing {
        LoopKeepsLists(s.(firingIndex := s.firingIndex + 1));
      }
  }

  /** Every fire is let through. */
  lemma {:induction false} PlainAccepts(flags: Flags, ops: seq<Op>)
    requires !flags.once && AllPlain(flags, ops)
    ensures Repeatable(Run(Init(flags), ops)) && Accepted(Init(flags), ops) == FireData(ops)
    decreases |ops|
  {
    hide Ok, Apply, Plain;
    if ops != [] {
      PlainAccepts(flags, ops[..|ops| - 1]);
      PlainKeepsLists(Run(Init(flags), ops[..|ops| - 1]), ops[|ops| - 1]);
    }
  }

  /** The passes an operation begins on a list that is not empty. */
  predicate BeginsOneAtMost(s: State, s': State) {
    || s'.begun == s.begun
    || (s'.begun != [] && s'.begun == s.begun + [Pass(s'.begun[|s'.begun| - 1].data, true)])
    || BeginsFire(s, s')
  }

  predicate BeginsFire(s: State, s': State) {
    && s'.begun != [] && s'.begun == s.begun + [Pass(s'.begun[|s'.begun| - 1].data, false)]
    && s'.list == s.list && s'.firingIndex == 0
  }

  lemma AddBegins(s: State, fns: seq<nat>)
    requires Ok(s) && Repeatable(s)
    ensures BeginsOneAtMost(s, Add(s, fns)) && !BeginsFire(s, Add(s, fns))
  {
    hide Ordered, LogOk, PushAll;
    if !s.firing && s.memory.Some? {
      var (list, nextId) := PushAll(s.list.value, s.nextId, fns, s.flags.unique);
      var b := BeginPass(s.(list := Some(list), nextId := nextId, firingStart := |s.list.value|), s.memory.value, true);
      assert Finish(b).begun == b.begun;
      assert Add(s, fns) == Loop(b);
    }
  }

  lemma FireBegins(s: State, data: Data)
    requires Ok(s) && Repeatable(s) && s.list.value != []
    ensures var s' := FireWith(s, data); s'.begun == s.begun || (BeginsFire(s, s') && JustBegun(s'))
  {
    if !s.firing {
      FireBeginsPass(s, data);
      hide *;
    }
  }

  lemma ReturnBegins(s: State, isFalse: bool)
    requires Ok(s) && Repeatable(s) && s.list.value != [] && Plain(s.flags, Returned(isFalse))
    ensures var s' := Return(s, isFalse); s'.begun == s.begun || (BeginsFire(s, s') && JustBegun(s'))
  {
    if s.firing && LastOfPass(s, isFalse) && s.stack.value != [] {
      WaitingFireBeginsPass(s, isFalse);
      hide *;
    } else if s.firing {
      hide Ordered, LogOk;
      var next := s.(firingIndex := s.firingIndex + 1);
      assert s.stack.value == [] ==> Finish(next).begun == s.begun;
      assert Return(s, isFalse) == Loop(next);
    }
  }

  lemma PlainBegins(s: State, op: Op)
    requires Ok(s) && Repeatable(s) && s.list.value != [] && Plain(s.flags, op)
    ensures var s' := Apply(s, op); BeginsOneAtMost(s, s') && (BeginsFire(s, s') ==> JustBegun(s'))
  {
    match op
    case AddOp(fns) =>
      AddBegins(s, fns);
      hide *;
    case FireOp(data) =>
      FireBegins(s, data);
      hide *;
    case Returned(isFalse) =>
      ReturnBegins(s, isFalse);
      hide *;
  }

  // ---- The pass of one fire ----

  /** Pass `n` is that of the fire number `k`, replays apart. */
  predicate IsNth(begun: seq<Pass>, n: nat, k: nat) {
    n < |begun| && !begun[n].replay && |Delivered(begun[..n])| == k
  }

  lemma {:induction false} NthData(begun: seq<Pass>, n: nat, k: nat)
    requires IsNth(begun, n, k)
    ensures k < |Delivered(begun)| && begun[n].data == Delivered(begun)[k]
    decreases |begun|
  {
    var init := begun[..|begun| - 1];
    if n < |init| {
      assert init[..n] == begun[..n];
      NthData(init, n, k);
    }
  }

  lemma {:induction false} NthExists(begun: seq<Pass>, k: nat)
    requires k < |Delivered(begun)|
    ensures exists n: nat :: IsNth(begun, n, k)
    decreases |begun|
  {
    var init := begun[..|begun| - 1];
    if k < |Delivered(init)| {
      NthExists(init, k);
      var n: nat :| IsNth(init, n, k);
      assert init[..n] == begun[..n];
      assert IsNth(begun, n, k);
    } else {
      assert IsNth(begun, |init|, k);
    }
  }

  /** `t` follows the pass of fire number `k`, which owes the entries `heard` and drops none. */
  ghost predicate Follows(t: Track, heard: seq<Entry>, k: nat) {
    TrackOk(t) && t.dropped == {} && heard <= t.roll && IsNth(t.s.begun, t.pass, k)
  }

  lemma FollowsOn(t: Track, heard: seq<Entry>, k: nat, op: Op)
    requires Follows(t, heard, k) && Repeatable(t.s) && t.s.list.value != [] && Plain(t.s.flags, op)
    ensures Follows(Follow(t, op), heard, k) && Follow(t, op).s == Apply(t.s, op)
  {
    FollowKeepsTrack(t, op);
    FollowApplies(t, op);
    var t' := Follow(t, op);
    BeginsExtends(t.s, op, t.pass);
    FollowDrops(t, op);
    hide Follow, TrackOk, Apply, Ok, Plain;
  }

  lemma FollowDrops(t: Track, op: Op)
    requires TrackOk(t) && Repeatable(t.s) && Plain(t.s.flags, op)
    ensures Follow(t, op).dropped == t.dropped && t.roll <= Follow(t, op).roll
  {
    hide TrackOk, Ok, Apply, IsOpen;
    PlainCutsNothing(t.s, op);
  }

  lemma PlainCutsNothing(s: State, op: Op)
    requires Plain(s.flags, op)
    ensures !Cuts(s, op) && !op.RemoveOp?
  {
  }

  lemma BeginsExtends(s: State, op: Op, n: nat)
    requires Ok(s) && Repeatable(s) && s.list.value != [] && Plain(s.flags, op) && n < |s.begun|
    ensures var b := Apply(s, op).begun; n < |b| && b[n] == s.begun[n] && b[..n] == s.begun[..n]
  {
    PlainBegins(s, op);
    hide Ok, Apply, JustBegun;
  }

  /** Either fire number `k` has not been delivered, or its pass is followed. */
  ghost predicate Hears(s: State, heard: seq<Entry>, k: nat) {
    && Ok(s) && Repeatable(s) && heard != [] && heard <= s.list.value
    && (|Delivered(s.begun)| <= k || Followed(s, heard, k))
  }

  ghost predicate Followed(s: State, heard: seq<Entry>, k: nat) {
    exists t :: Follows(t, heard, k) && t.s == s
  }

  lemma PassIsFollowed(s: State, s': State, heard: seq<Entry>, k: nat)
    requires |Delivered(s.begun)| <= k < |Delivered(s'.begun)|
    requires Repeatable(s) && heard <= s.list.value
    requires BeginsOneAtMost(s, s') && (BeginsFire(s, s') ==> JustBegun(s'))
    ensures Followed(s', heard, k)
  {
    hide Ok;
    var last := s'.begun[|s'.begun| - 1];
    DeliveredNext(s.begun, last);
    var t := StartTrack(s');
    assert s'.begun[..t.pass] == s.begun;
    assert s'.list.value[0..] == s'.list.value;
    StartRoll(s');
    hide TrackOk, StartTrack;
    assert Follows(t, heard, k);
  }

  lemma StartRoll(s: State)
    requires JustBegun(s)
    ensures StartTrack(s) == Track(s, |s.begun| - 1, s.list.value[s.firingIndex..], {})
  {
  }

  lemma HearsOn(s: State, op: Op, heard: seq<Entry>, k: nat)
    requires Hears(s, heard, k) && Plain(s.flags, op)
    ensures Hears(Apply(s, op), heard, k)
  {
    PlainKeepsLists(s, op);
    KeepsOk(s, op);
    PlainBegins(s, op);
    var s' := Apply(s, op);
    hide Ok, Apply, Plain, BeginsFire, BeginsOneAtMost, JustBegun, Follows;
    if |Delivered(s.begun)| > k {
      var t :| Follows(t, heard, k) && t.s == s;
      FollowsOn(t, heard, k, op);
    } else if |Delivered(s'.begun)| > k {
      PassIsFollowed(s, s', heard, k);
    }
  }

  lemma {:induction false} HearsAll(s: State, ops: seq<Op>, heard: seq<Entry>, k: nat)
    requires Ok(s) && Hears(s, heard, k) && AllPlain(s.flags, ops)
    ensures Hears(Run(s, ops), heard, k)
    decreases |ops|
  {
    hide Hears, Apply, Plain, Ok;
    if ops != [] {
      HearsAll(s, ops[..|ops| - 1], heard, k);
      HearsOn(Run(s, ops[..|ops| - 1]), ops[|ops| - 1], heard, k);
    }
  }

  /** At rest a followed pass is over, and has called what it owed. */
  lemma FollowedIsCalled(s: State, heard: seq<Entry>, k: nat)
    requires Followed(s, heard, k) && !s.firing
    ensures exists n: nat :: IsNth(s.begun, n, k) && heard <= CalledIn(s.log, n)
  {
    var t :| Follows(t, heard, k) && t.s == s;
    FilterAll(t.roll, Undropped({}));
    assert IsNth(s.begun, t.pass, k) && heard <= CalledIn(s.log, t.pass);
  }

  /** The list before the fire at position `p`. */
  ghost function ListAt(flags: Flags, ops: seq<Op>, p: nat): seq<Entry>
    requires p <= |ops|
  {
    var s := Run(Init(flags), ops[..p]);
    if s.list.Some? then s.list.value else []
  }

  /** On a repeatable list to which functions are only added, every fire, nested or not, has its
      own pass, the passes come in the order of the fires, and once the list is at rest the pass
      of each has called, in order and first of all, every entry there was when `fire` was
      called. */
  lemma FireIsHeard(flags: Flags, ops: seq<Op>, p: nat)
    requires !flags.once && AllPlain(flags, ops) && p < |ops| && ops[p].FireOp?
    requires !Run(Init(flags), ops).firing
    ensures var s := Run(Init(flags), ops);
      Delivered(s.begun) == FireData(ops) &&
      exists n: nat :: IsNth(s.begun, n, |FireData(ops[..p])|) && s.begun[n].data == ops[p].data
                    && ListAt(flags, ops, p) <= CalledIn(s.log, n)
  {
    hide Ok, Apply, Plain, FireData, Delivered, CalledIn, Followed, IsNth, Run, ListAt;
    var s, heard, k := Run(Init(flags), ops), ListAt(flags, ops, p), |FireData(ops[..p])|;
    FiresAreFireData(flags, ops);
    FireAt(ops, p);
    if heard == [] {
      NthExists(s.begun, k);
      var n: nat :| IsNth(s.begun, n, k);
      NthData(s.begun, n, k);
    } else {
      HeardIsFollowed(flags, ops, p);
      FollowedIsCalled(s, heard, k);
      var n: nat :| IsNth(s.begun, n, k) && heard <= CalledIn(s.log, n);
      NthData(s.begun, n, k);
    }
  }

  lemma FiresAreFireData(flags: Flags, ops: seq<Op>)
    requires !flags.once && AllPlain(flags, ops)
    ensures var s := Run(Init(flags), ops);
      && Delivered(s.begun) + Waiting(s) == FireData(ops) && (!s.firing ==> Delivered(s.begun) == FireData(ops))
  {
    PlainAccepts(flags, ops);
    FiresAreDeliveredInOrder(flags, ops);
  }

  lemma {:induction false} FireAt(ops: seq<Op>, p: nat)
    requires p < |ops| && ops[p].FireOp?
    ensures |FireData(ops[..p])| < |FireData(ops)| && FireData(ops)[|FireData(ops[..p])|] == ops[p].data
    decreases |ops|
  {
    var init := ops[..|ops| - 1];
    if p < |init| {
      assert init[..p] == ops[..p];
      FireAt(init, p);
    }
  }

  lemma HeardIsFollowed(flags: Flags, ops: seq<Op>, p: nat)
    requires !flags.once && AllPlain(flags, ops) && p < |ops| && ops[p].FireOp?
    requires !Run(Init(flags), ops).firing && ListAt(flags, ops, p) != []
    ensures Followed(Run(Init(flags), ops), ListAt(flags, ops, p), |FireData(ops[..p])|)
  {
    var before, k := Run(Init(flags), ops[..p]), |FireData(ops[..p])|;
    hide Ok, Apply, Plain, FireData, Delivered, Followed;
    PlainAccepts(flags, ops[..p]);
    FiresAreFireData(flags, ops[..p]);
    assert Hears(before, ListAt(flags, ops, p), k);
    HearsAll(before, ops[p..], ListAt(flags, ops, p), k);
    RunAppend(Init(flags), ops[..p], ops[p..]);
    assert ops[..p] + ops[p..] == ops;
    FiresAreFireData(flags, ops);
    FireAt(ops, p);
  }
}
