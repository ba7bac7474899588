/** What one firing pass delivers, however its callbacks change the list, and how passes
    follow each other. */
module CallbackPasses {
  import opened Optional
  import opened Lists
  import opened Callbacks

  /** The entries called in pass `n`, in the order of the calls. */
  function CalledIn(log: seq<Call>, n: nat): seq<Entry> {
    if log == [] then []
    else
      var last := log[|log| - 1];
      CalledIn(log[..|log| - 1], n) + (if last.pass == n then [last.entry] else [])
  }

  /** The entries the pass in progress has yet to reach. */
  function Pending(s: State): seq<Entry>
    requires s.firing ==> CursorOk(s) && s.firingIndex >= -1
    requires s.firing && s.list.Some? ==> s.firingIndex < |s.list.value|
  {
    if s.firing && s.list.Some? then s.list.value[s.firingIndex + 1..] else []
  }

  /** One pass followed through its life: `roll` is what it had to deliver at its start and
      all that was added while it lasted, `dropped` the ids removed before their turn, or cut
      off by an early end of the pass. */
  datatype Track = Track(s: State, pass: nat, roll: seq<Entry>, dropped: set<nat>)

  ghost predicate IsOpen(t: Track) {
    t.s.firing && |t.s.begun| == t.pass + 1
  }

  function Undropped(dropped: set<nat>): Entry -> bool {
    (e: Entry) => e.id !in dropped
  }

  ghost predicate TrackOk(t: Track) {
    && Ok(t.s) && t.pass < |t.s.begun|
    && Ordered(t.roll, t.s.nextId)
    && (forall id | id in t.dropped :: id < t.s.nextId)
    && if IsOpen(t)
       then CalledIn(t.s.log, t.pass) + Pending(t.s) == Filter(t.roll, Undropped(t.dropped))
       else CalledIn(t.s.log, t.pass) == Filter(t.roll, Undropped(t.dropped))
  }

  /** Operations that end the pass after the callback at the cursor: the list is disabled,
      directly or by `lock` without a memory, or the callback returns false and that counts. */
  predicate Cuts(s: State, op: Op) {
    match op
    case AddOp(_) => false
    case RemoveOp(_) => false
    case FireOp(_) => false
    case LockOp => s.memory.None?
    case DisableOp => true
    case Returned(isFalse) => isFalse && s.flags.stopOnFalse
  }

  function IdsOf(list: seq<Entry>, fn: nat): set<nat> {
    set e | e in list && e.fn == fn :: e.id
  }

  function AllIds(list: seq<Entry>): set<nat> {
    set e | e in list :: e.id
  }

  ghost function Follow(t: Track, op: Op): Track
    requires TrackOk(t)
  {
    var s' := Apply(t.s, op);
    if !IsOpen(t) then t.(s := s')
    else if Cuts(t.s, op) then t.(s := s', dropped := t.dropped + AllIds(Pending(t.s)))
    else if t.s.list.Some? && op.AddOp? then t.(s := s', roll := t.roll + s'.list.value[|t.s.list.value|..])
    else if op.RemoveOp? then t.(s := s', dropped := t.dropped + IdsOf(Pending(t.s), op.fn))
    else t.(s := s')
  }

  // ---- The effect of starting and finishing passes on the log ----

  lemma {:induction false} CalledInAppend(log: seq<Call>, more: seq<Call>, n: nat)
    requires forall i | 0 <= i < |more| :: more[i].pass != n
    ensures CalledIn(log + more, n) == CalledIn(log, n)
    decreases |more|
  {
    if more == [] {
      assert log + more == log;
    } else {
      var all := log + more;
      assert all[..|all| - 1] == log + more[..|more| - 1];
      CalledInAppend(log, more[..|more| - 1], n);
    }
  }

  /** Passes begun by `Loop` and `Finish` come after pass `n` and log after it. */
  ghost predicate LaterOnly(a: State, b: State, n: nat) {
    && a.begun <= b.begun && a.log <= b.log
    && (forall i | |a.log| <= i < |b.log| :: b.log[i].pass > n)
    && a.nextId == b.nextId && a.flags == b.flags
    && (b.firing ==> |b.begun| > n + 1)
  }

  lemma {:induction false} FinishIsLater(s: State, n: nat)
    requires Midway(s) && n + 1 == |s.begun|
    ensures LaterOnly(s, Finish(s), n)
    decreases QueueLength(s)
  {
    if s.list.Some? && s.stack.Some? && s.stack.value != [] {
      var s' := BeginPass(s.(firing := false, stack := Some(s.stack.value[1..])), s.stack.value[0], false);
      if s'.firingIndex < s'.firingLength {
      } else {
        FinishIsLater(s', n + 1);
      }
    }
  }

  lemma LaterKeepsCalled(a: State, b: State, n: nat)
    requires LaterOnly(a, b, n)
    ensures CalledIn(b.log, n) == CalledIn(a.log, n)
  {
    var more := b.log[|a.log|..];
    assert b.log == a.log + more;
    CalledInAppend(a.log, more, n);
  }

  // ---- Each operation in the middle of the pass ----

  lemma {:induction false} PushAllAppends(list: seq<Entry>, nextId: nat, fns: seq<nat>, unique: bool)
    requires Ordered(list, nextId)
    ensures var r := PushAll(list, nextId, fns, unique);
      Ordered(r.0, r.1) && forall i | |list| <= i < |r.0| :: nextId <= r.0[i].id
    decreases |fns|
  {
    if fns != [] {
      if unique && Has(list, fns[0]) {
        PushAllAppends(list, nextId, fns[1..], unique);
        assert PushAll(list, nextId, fns, unique) == PushAll(list, nextId, fns[1..], unique);
      } else {
        var longer := list + [Entry(fns[0], nextId)];
        PushAllAppends(longer, nextId + 1, fns[1..], unique);
        var r := PushAll(longer, nextId + 1, fns[1..], unique);
        assert PushAll(list, nextId, fns, unique) == r;
        assert longer <= r.0 && r.0[|list|] == longer[|list|];
      }
    }
  }

  lemma OrderedAppend(list: seq<Entry>, more: seq<Entry>, below: nat, below': nat)
    requires Ordered(list, below) && below <= below' && Ordered(more, below')
    requires forall i | 0 <= i < |more| :: below <= more[i].id
    ensures Ordered(list + more, below')
  {
  }

  lemma NewAreUndropped(dropped: set<nat>, new': seq<Entry>, below: nat)
    requires forall id | id in dropped :: id < below
    requires forall i | 0 <= i < |new'| :: below <= new'[i].id
    ensures Filter(new', Undropped(dropped)) == new'
  {
    forall e | e in new' ensures Undropped(dropped)(e) {
      var i :| 0 <= i < |new'| && new'[i] == e;
    }
    FilterAll(new', Undropped(dropped));
  }

  /** Additions go to the end of what is still to come. */
  lemma AdditionsComeLast(roll: seq<Entry>, dropped: set<nat>, called: seq<Entry>, pending: seq<Entry>, new': seq<Entry>)
    requires called + pending == Filter(roll, Undropped(dropped))
    requires Filter(new', Undropped(dropped)) == new'
    ensures called + (pending + new') == Filter(roll + new', Undropped(dropped))
  {
    ConcatAssociates(called, pending, new');
    FilterAppend(roll, new', Undropped(dropped));
  }

  /** The list after an `add` in the middle of a pass. */
  lemma AddShape(s: State, fns: seq<nat>) returns (new': seq<Entry>)
    requires Ok(s) && s.firing && s.list.Some?
    ensures var s' := Add(s, fns);
      && Ok(s') && s' == s.(list := Some(s.list.value + new'), nextId := s'.nextId, firingLength := s'.firingLength)
      && Pending(s') == Pending(s) + new'
      && s.nextId <= s'.nextId && Ordered(new', s'.nextId) && forall i | 0 <= i < |new'| :: s.nextId <= new'[i].id
  {
    var list := s.list.value;
    KeepsOk(s, AddOp(fns));
    PushAllAppends(list, s.nextId, fns, s.flags.unique);
    var r := PushAll(list, s.nextId, fns, s.flags.unique);
    new' := r.0[|list|..];
    assert r.0 == list + new';
    assert r.0[s.firingIndex + 1..] == list[s.firingIndex + 1..] + new';
    OrderedSuffix(r.0, r.1, |list|);
    forall i | 0 <= i < |new'| ensures s.nextId <= new'[i].id {
      assert new'[i] == r.0[|list| + i];
    }
  }

  lemma AddFollows(t: Track, fns: seq<nat>)
    requires TrackOk(t) && IsOpen(t) && t.s.list.Some?
    ensures TrackOk(Follow(t, AddOp(fns)))
  {
    hide Filter, CalledIn, PushAll, Loop, Finish, Ordered, LogOk;
    var new' := AddShape(t.s, fns);
    var s' := Add(t.s, fns);
    NewAreUndropped(t.dropped, new', t.s.nextId);
    OrderedAppend(t.roll, new', t.s.nextId, s'.nextId);
    AdditionsComeLast(t.roll, t.dropped, CalledIn(t.s.log, t.pass), Pending(t.s), new');
    hide Ok, Add;
    assert s'.list.value[|t.s.list.value|..] == new';
    assert Follow(t, AddOp(fns)) == t.(s := s', roll := t.roll + new');
  }

  /** Of the entries to come, the removed ones go. */
  lemma RemoveShape(s: State, fn: nat)
    requires Ok(s) && s.firing && s.list.Some?
    ensures var s' := Remove(s, fn);
      && Ok(s') && s' == s.(list := s'.list, firingIndex := s'.firingIndex, firingLength := s'.firingLength)
      && Pending(s') == Filter(Pending(s), OtherThan(fn))
  {
    hide Filter, LogOk, Ordered;
    var list, upto := s.list.value, s.firingIndex + 1;
    RemoveOk(s, fn);
    assert list == list[..upto] + list[upto..];
    FilterAppend(list[..upto], list[upto..], OtherThan(fn));
    FilterOrdered(list[..upto], s.nextId, OtherThan(fn)) by {
      OrderedPrefix(list, s.nextId, upto);
    }
  }

  lemma OrderedPrefix(list: seq<Entry>, below: nat, upto: nat)
    requires Ordered(list, below) && upto <= |list|
    ensures Ordered(list[..upto], below)
  {
  }

  /** Entries already called keep their place; of those to come, the removed ones are dropped. */
  lemma RemovalDrops(roll: seq<Entry>, below: nat, dropped: set<nat>, called: seq<Entry>, pending: seq<Entry>, fn: nat)
    requires Ordered(roll, below) && called + pending == Filter(roll, Undropped(dropped))
    ensures called + Filter(pending, OtherThan(fn)) == Filter(roll, Undropped(dropped + IdsOf(pending, fn)))
    ensures forall id | id in IdsOf(pending, fn) :: id < below
  {
    hide Filter;
    var gone := IdsOf(pending, fn);
    var other := (e: Entry) => e.id !in gone;
    FilterFilter(roll, Undropped(dropped), other, Undropped(dropped + gone));
    FilterOrdered(roll, below, Undropped(dropped));
    FilterAppend(called, pending, other);
    forall e | e in called ensures other(e) {
      CalledBeforePending(called, pending, below, e);
    }
    FilterAll(called, other);
    forall e | e in pending ensures other(e) == OtherThan(fn)(e) && e.id < below {
      PendingBelow(called, pending, below, e);
      if e.id in gone && e.fn != fn {
        var e' :| e' in pending && e'.fn == fn && e'.id == e.id;
        SameIdSameEntry(pending, below, e, e');
      }
    }
    FilterSame(pending, other, OtherThan(fn));
  }

  lemma PendingBelow(called: seq<Entry>, pending: seq<Entry>, below: nat, e: Entry)
    requires Ordered(called + pending, below) && e in pending
    ensures e.id < below
  {
    var j :| 0 <= j < |pending| && pending[j] == e;
    assert (called + pending)[|called| + j] == e;
  }

  lemma RemoveFollows(t: Track, fn: nat)
    requires TrackOk(t) && IsOpen(t) && t.s.list.Some?
    ensures TrackOk(Follow(t, RemoveOp(fn)))
  {
    hide Filter, CalledIn, Ordered, LogOk;
    RemoveShape(t.s, fn);
    RemovalDrops(t.roll, t.s.nextId, t.dropped, CalledIn(t.s.log, t.pass), Pending(t.s), fn);
    hide Ok, Remove, Pending;
  }

  lemma CalledBeforePending(called: seq<Entry>, pending: seq<Entry>, below: nat, e: Entry)
    requires Ordered(called + pending, below) && e in called
    ensures forall p | p in pending :: p.id != e.id
  {
    var all := called + pending;
    var i :| 0 <= i < |called| && called[i] == e;
    forall p | p in pending ensures p.id != e.id {
      var j :| 0 <= j < |pending| && pending[j] == p;
      assert all[i] == e && all[|called| + j] == p;
    }
  }

  lemma SameIdSameEntry(list: seq<Entry>, below: nat, a: Entry, b: Entry)
    requires exists prefix: seq<Entry> :: Ordered(prefix + list, below)
    requires a in list && b in list && a.id == b.id
    ensures a == b
  {
    var prefix: seq<Entry> :| Ordered(prefix + list, below);
    var all := prefix + list;
    var i :| 0 <= i < |list| && list[i] == a;
    var j :| 0 <= j < |list| && list[j] == b;
    assert all[|prefix| + i] == a && all[|prefix| + j] == b;
  }

  /** Entries already called keep their place, and nothing is to come any more. */
  lemma CutDrops(roll: seq<Entry>, below: nat, dropped: set<nat>, called: seq<Entry>, pending: seq<Entry>)
    requires Ordered(roll, below) && called + pending == Filter(roll, Undropped(dropped))
    ensures called == Filter(roll, Undropped(dropped + AllIds(pending)))
    ensures forall id | id in AllIds(pending) :: id < below
  {
    hide Filter;
    var cut := AllIds(pending);
    var other := (e: Entry) => e.id !in cut;
    FilterFilter(roll, Undropped(dropped), other, Undropped(dropped + cut));
    FilterOrdered(roll, below, Undropped(dropped));
    FilterAppend(called, pending, other);
    forall e | e in called ensures other(e) {
      CalledBeforePending(called, pending, below, e);
    }
    FilterAll(called, other);
    forall e | e in pending ensures e.id < below {
      PendingBelow(called, pending, below, e);
    }
    FilterNone(pending, other);
  }

  /** The list that goes off stays in the pass, with nothing to come; an early return ends it. */
  lemma CutShape(s: State, op: Op)
    requires Ok(s) && s.firing && Cuts(s, op)
    ensures var s' := Apply(s, op);
      && Ok(s') && CalledIn(s'.log, |s.begun| - 1) == CalledIn(s.log, |s.begun| - 1) && s'.nextId == s.nextId
      && s.begun <= s'.begun && (s'.firing && |s'.begun| == |s.begun| ==> Pending(s') == [])
  {
    hide CalledIn, Loop, Finish, Ordered, LogOk;
    KeepsOk(s, op);
    if op.Returned? {
      StopIsLater(s);
      LaterKeepsCalled(s, Apply(s, op), |s.begun| - 1);
    }
  }

  lemma StopIsLater(s: State)
    requires Ok(s) && s.firing
    ensures LaterOnly(s, Finish(s.(memory := None)), |s.begun| - 1)
  {
    hide Finish, Loop;
    FinishIsLater(s.(memory := None), |s.begun| - 1);
  }

  lemma CutFollows(t: Track, op: Op)
    requires TrackOk(t) && IsOpen(t) && Cuts(t.s, op)
    ensures TrackOk(Follow(t, op))
  {
    hide Filter, CalledIn, Ordered, LogOk;
    CutShape(t.s, op);
    CutDrops(t.roll, t.s.nextId, t.dropped, CalledIn(t.s.log, t.pass), Pending(t.s));
    hide Ok, Apply, Pending, Cuts;
    var called := CalledIn(t.s.log, t.pass);
    assert called + [] == called;
  }

  lemma ReturnCallsNext(t: Track)
    requires TrackOk(t) && IsOpen(t) && t.s.list.Some? && t.s.firingIndex + 1 < t.s.firingLength
    ensures TrackOk(t.(s := Loop(t.s.(firingIndex := t.s.firingIndex + 1))))
  {
    var s := t.s;
    var s' := s.(firingIndex := s.firingIndex + 1);
    var after := Loop(s');
    LoopOk(s');
    NextIsCalled(s', t.pass);
    assert Pending(s) == [s.list.value[s'.firingIndex]] + Pending(after);
    assert CalledIn(after.log, t.pass) + Pending(after) == CalledIn(s.log, t.pass) + Pending(s);
  }

  lemma ReturnEndsPass(t: Track)
    requires TrackOk(t) && IsOpen(t) && (t.s.list.None? || t.s.firingIndex + 1 >= t.s.firingLength)
    ensures TrackOk(t.(s := Loop(t.s.(firingIndex := t.s.firingIndex + 1))))
  {
    var s := t.s;
    var s' := s.(firingIndex := s.firingIndex + 1);
    var after := Loop(s');
    LoopOk(s');
    FinishIsLater(s', t.pass);
    LaterKeepsCalled(s', after, t.pass);
    assert Pending(s) == [];
    assert CalledIn(s.log, t.pass) + Pending(s) == CalledIn(after.log, t.pass);
  }

  lemma ReturnFollows(t: Track, isFalse: bool)
    requires TrackOk(t) && IsOpen(t) && !Cuts(t.s, Returned(isFalse))
    ensures TrackOk(Follow(t, Returned(isFalse)))
  {
    if t.s.list.Some? && t.s.firingIndex + 1 < t.s.firingLength {
      ReturnCallsNext(t);
    } else {
      ReturnEndsPass(t);
    }
  }

  lemma NextIsCalled(s: State, n: nat)
    requires Midway(s) && s.firingIndex >= 0 && n + 1 == |s.begun|
    requires s.list.Some? && s.firingIndex < s.firingLength
    ensures CalledIn(Loop(s).log, n) == CalledIn(s.log, n) + [s.list.value[s.firingIndex]]
  {
    var log := Loop(s).log;
    assert log[..|log| - 1] == s.log;
  }

  /** After its end a pass gets no more calls. */
  lemma ClosedFollows(t: Track, op: Op)
    requires TrackOk(t) && !IsOpen(t)
    ensures TrackOk(Follow(t, op))
  {
    KeepsOk(t.s, op);
    OthersAreLater(t.s, op, t.pass);
    LaterCalls(t.s, Apply(t.s, op), t.pass);
  }

  ghost predicate GrowsAfter(a: State, b: State, n: nat) {
    && a.begun <= b.begun && a.log <= b.log && a.nextId <= b.nextId
    && (forall i | |a.log| <= i < |b.log| :: b.log[i].pass > n)
    && (b.firing ==> |b.begun| > n + 1)
  }

  lemma LaterCalls(a: State, b: State, n: nat)
    requires GrowsAfter(a, b, n)
    ensures CalledIn(b.log, n) == CalledIn(a.log, n)
  {
    var more := b.log[|a.log|..];
    assert b.log == a.log + more;
    CalledInAppend(a.log, more, n);
  }

  /** A pass begun after pass `n` has ended logs as a later pass. */
  lemma FreshPassIsLater(s: State, data: Data, replay: bool, n: nat)
    requires s.list.Some? && n < |s.begun| && Midway(BeginPass(s, data, replay))
    ensures GrowsAfter(s, Loop(BeginPass(s, data, replay)), n)
  {
    var s' := BeginPass(s, data, replay);
    if !(s'.firingIndex < s'.firingLength) {
      FinishIsLater(s', |s.begun|);
    }
  }

  lemma AddIsLater(s: State, fns: seq<nat>, n: nat)
    requires Ok(s) && n < |s.begun| && (s.firing ==> |s.begun| > n + 1)
    ensures GrowsAfter(s, Add(s, fns), n)
  {
    if s.list.Some? && !s.firing && s.memory.Some? {
      PushAllOrdered(s.list.value, s.nextId, fns, s.flags.unique);
      var (list, nextId) := PushAll(s.list.value, s.nextId, fns, s.flags.unique);
      FreshPassIsLater(s.(list := Some(list), nextId := nextId, firingStart := |s.list.value|), s.memory.value, true, n);
    }
  }

  lemma ReturnIsLater(s: State, isFalse: bool, n: nat)
    requires Ok(s) && n < |s.begun| && (s.firing ==> |s.begun| > n + 1)
    ensures GrowsAfter(s, Return(s, isFalse), n)
  {
    if s.firing {
      var stop := isFalse && s.flags.stopOnFalse;
      var s' := if stop then s.(memory := None) else s.(firingIndex := s.firingIndex + 1);
      if stop || !(s'.list.Some? && s'.firingIndex < s'.firingLength) {
        FinishIsLater(s', |s.begun| - 1);
      }
    }
  }

  lemma OthersAreLater(s: State, op: Op, n: nat)
    requires Ok(s) && n < |s.begun| && (s.firing ==> |s.begun| > n + 1)
    ensures GrowsAfter(s, Apply(s, op), n)
  {
    match op
    case AddOp(fns) => AddIsLater(s, fns, n);
    case RemoveOp(fn) =>
    case FireOp(data) =>
      if Accepts(s) && !s.firing {
        FreshPassIsLater(s, data, false, n);
      }
    case LockOp =>
    case DisableOp =>
    case Returned(isFalse) => ReturnIsLater(s, isFalse, n);
  }

  /** An operation that neither adds, removes nor ends leaves the pass as it is. */
  lemma OtherwiseFollows(t: Track, op: Op)
    requires TrackOk(t) && IsOpen(t) && !Cuts(t.s, op) && !op.Returned?
    requires t.s.list.Some? ==> !op.AddOp? && !op.RemoveOp?
    ensures TrackOk(Follow(t, op))
  {
    KeepsOk(t.s, op);
    assert Pending(Apply(t.s, op)) == Pending(t.s);
    if op.RemoveOp? {
      assert t.dropped + IdsOf(Pending(t.s), op.fn) == t.dropped;
    }
  }

  lemma FollowApplies(t: Track, op: Op)
    requires TrackOk(t)
    ensures Ok(t.s) && Follow(t, op).s == Apply(t.s, op) && Follow(t, op).pass == t.pass
  {
    hide Apply, Ok;
  }

  lemma FollowKeepsTrack(t: Track, op: Op)
    requires TrackOk(t)
    ensures TrackOk(Follow(t, op))
  {
    hide TrackOk, Follow, IsOpen, Cuts;
    if !IsOpen(t) {
      ClosedFollows(t, op);
    } else if Cuts(t.s, op) {
      CutFollows(t, op);
    } else if op.Returned? {
      ReturnFollows(t, op.isFalse);
    } else if t.s.list.Some? && op.AddOp? {
      AddFollows(t, op.fns);
    } else if t.s.list.Some? && op.RemoveOp? {
      RemoveFollows(t, op.fn);
    } else {
      OtherwiseFollows(t, op);
    }
  }

  ghost function FollowAll(t: Track, ops: seq<Op>): (r: Track)
    requires TrackOk(t)
    ensures TrackOk(r) && r.pass == t.pass && r.s.flags == t.s.flags
    ensures r.s == Run(t.s, ops)
    decreases |ops|
  {
    hide TrackOk, Follow, Apply, Ok;
    if ops == [] then t
    else
      var before := FollowAll(t, ops[..|ops| - 1]);
      FollowKeepsTrack(before, ops[|ops| - 1]);
      KeepsOk(before.s, ops[|ops| - 1]);
      FollowApplies(before, ops[|ops| - 1]);
      Follow(before, ops[|ops| - 1])
  }

  /** A pass has just made its first call. */
  ghost predicate JustBegun(s: State) {
    && Ok(s) && s.firing && s.list.Some? && s.firingIndex >= 0
    && CalledIn(s.log, |s.begun| - 1) == [s.list.value[s.firingIndex]]
  }

  /** Follow the pass from its first call: it owes the entries from the cursor on. */
  ghost function StartTrack(s: State): (t: Track)
    requires JustBegun(s)
    ensures TrackOk(t) && t.s == s
  {
    StartTrackOk(s);
    Track(s, |s.begun| - 1, s.list.value[s.firingIndex..], {})
  }

  lemma OrderedSuffix(list: seq<Entry>, below: nat, from: nat)
    requires Ordered(list, below) && from <= |list|
    ensures Ordered(list[from..], below)
  {
  }

  lemma StartTrackOk(s: State)
    requires JustBegun(s)
    ensures TrackOk(Track(s, |s.begun| - 1, s.list.value[s.firingIndex..], {}))
  {
    var roll := s.list.value[s.firingIndex..];
    OrderedSuffix(s.list.value, s.nextId, s.firingIndex);
    hide Ordered, LogOk;
    FilterAll(roll, Undropped({}));
    assert roll == [s.list.value[s.firingIndex]] + Pending(s);
  }

  /** Whatever its callbacks do, the entries a pass had at its start and those added while it
      lasted, in list order, without those removed before their turn and those still to come when
      it was cut off, are called exactly once each: no removal makes the pass skip or repeat an
      entry. */
  lemma PassCallsEachOnce(s: State, ops: seq<Op>)
    requires JustBegun(s)
    ensures
      var t' := FollowAll(StartTrack(s), ops);
      var called := CalledIn(t'.s.log, t'.pass);
      && t'.s == Run(s, ops)
      && called + (if IsOpen(t') then Pending(t'.s) else []) == Filter(t'.roll, Undropped(t'.dropped))
      && (forall i, j | 0 <= i < j < |called| :: called[i].id != called[j].id)
      && (IsOpen(t') && t'.s.list.Some? ==> t'.s.firingLength == |t'.s.list.value|)
  {
    var t' := FollowAll(StartTrack(s), ops);
    FilterOrdered(t'.roll, t'.s.nextId, Undropped(t'.dropped));
    var called := CalledIn(t'.s.log, t'.pass);
    var all := Filter(t'.roll, Undropped(t'.dropped));
    assert forall i | 0 <= i < |called| :: called[i] == all[i];
  }

  lemma {:induction false} NoCallsYet(log: seq<Call>, n: nat)
    requires forall i | 0 <= i < |log| :: log[i].pass < n
    ensures CalledIn(log, n) == []
    decreases |log|
  {
    if log != [] {
      NoCallsYet(log[..|log| - 1], n);
    }
  }

  /** A pass whose first call has just been logged has just begun. */
  lemma FirstCallBegins(s: State, s': State, pass: Pass)
    requires Ok(s) && Ok(s') && s'.firing && s'.list.Some? && s'.firingIndex >= 0
    requires s'.begun == s.begun + [pass]
    requires s'.log == s.log + [Call(s'.list.value[s'.firingIndex], pass.data, |s.begun|)]
    ensures JustBegun(s')
  {
    hide Ordered;
    NoCallsYet(s.log, |s.begun|);
    assert s'.log[..|s'.log| - 1] == s.log;
  }

  /** `fire` calls the entry it starts at, if there is one. */
  lemma BeginCalls(s: State, data: Data, replay: bool)
    requires s.list.Some? && s.firingStart < |s.list.value|
    ensures var next := BeginPass(s, data, replay);
      Loop(next) == next.(log := s.log + [Call(s.list.value[s.firingStart], data, |s.begun|)])
  {
    hide Finish;
  }

  /** A fire accepted while the list is at rest begins a pass over the whole list. */
  lemma FireBeginsPass(s: State, data: Data)
    requires Ok(s) && !s.firing && Accepts(s) && s.list.value != []
    ensures var s' := FireWith(s, data);
      && JustBegun(s') && s'.begun == s.begun + [Pass(data, false)]
      && s'.list == s.list && s'.firingIndex == 0
  {
    hide Loop, Finish, JustBegun, Ordered, LogOk;
    FireOk(s, data);
    BeginCalls(s, data, false);
    FirstCallBegins(s, FireWith(s, data), Pass(data, false));
  }

  /** Is the callback at the cursor the last of its pass? */
  predicate LastOfPass(s: State, isFalse: bool) {
    s.firing && ((isFalse && s.flags.stopOnFalse) || s.list.None? || s.firingIndex + 1 >= s.firingLength)
  }

  lemma EndBeginsNext(s: State, isFalse: bool)
    requires Ok(s) && LastOfPass(s, isFalse)
    requires s.list.Some? && s.stack.Some? && s.stack.value != []
    ensures var last := if isFalse && s.flags.stopOnFalse then s.(memory := None) else s.(firingIndex := s.firingIndex + 1);
      Return(s, isFalse) == Loop(BeginPass(last.(firing := false, stack := Some(s.stack.value[1..])), s.stack.value[0], false))
  {
    hide Ordered, LogOk;
    var last := if isFalse && s.flags.stopOnFalse then s.(memory := None) else s.(firingIndex := s.firingIndex + 1);
    assert Return(s, isFalse) == Finish(last);
  }

  /** A fire that has waited for the pass in progress begins a pass over the whole list as soon
      as that one ends. */
  lemma WaitingFireBeginsPass(s: State, isFalse: bool)
    requires Ok(s) && LastOfPass(s, isFalse)
    requires s.list.Some? && s.list.value != [] && s.stack.Some? && s.stack.value != []
    ensures var s' := Return(s, isFalse);
      && JustBegun(s') && s'.begun == s.begun + [Pass(s.stack.value[0], false)]
      && s'.list == s.list && s'.firingIndex == 0 && s'.stack == Some(s.stack.value[1..])
  {
    hide Loop, Finish, JustBegun, Ordered, LogOk;
    var last := if isFalse && s.flags.stopOnFalse then s.(memory := None) else s.(firingIndex := s.firingIndex + 1);
    ReturnOk(s, isFalse);
    EndBeginsNext(s, isFalse);
    BeginCalls(last.(firing := false, stack := Some(s.stack.value[1..])), s.stack.value[0], false);
    var s' := Return(s, isFalse);
    hide Return;
    FirstCallBegins(s, s', Pass(s.stack.value[0], false));
  }

  /** A list at rest that remembers a fire calls late additions at once, with the latest data,
      in a pass that covers only them. */
  lemma LateAdditionReplays(s: State, fns: seq<nat>)
    requires Ok(s) && !s.firing && s.list.Some? && s.memory.Some?
    requires |PushAll(s.list.value, s.nextId, fns, s.flags.unique).0| > |s.list.value|
    ensures var s' := Add(s, fns);
      && JustBegun(s') && s'.begun == s.begun + [Pass(s.begun[|s.begun| - 1].data, true)]
      && s'.firingIndex == |s.list.value| && s.list.value <= s'.list.value
      && s'.log[..|s.log|] == s.log && |s'.log| == |s.log| + 1
  {
    hide Loop, Finish, JustBegun, Ordered, LogOk, PushAll;
    AddOk(s, fns);
    var (list, nextId) := PushAll(s.list.value, s.nextId, fns, s.flags.unique);
    BeginCalls(s.(list := Some(list), nextId := nextId, firingStart := |s.list.value|), s.memory.value, true);
    FirstCallBegins(s, Add(s, fns), Pass(s.memory.value, true));
  }

  // ---- Nested fires ----

  /** The data of the passes that are not replays. */
  function Delivered(begun: seq<Pass>): seq<Data> {
    if begun == [] then []
    else
      var last := begun[|begun| - 1];
      Delivered(begun[..|begun| - 1]) + (if last.replay then [] else [last.data])
  }

  /** The fires `fireWith` let through during a run. */
  ghost function Accepted(s: State, ops: seq<Op>): seq<Data>
    requires Ok(s)
    decreases |ops|
  {
    if ops == [] then []
    else
      var before, op := Run(s, ops[..|ops| - 1]), ops[|ops| - 1];
      Accepted(s, ops[..|ops| - 1]) + (if op.FireOp? && Accepts(before) then [op.data] else [])
  }

  ghost function Waiting(s: State): seq<Data> {
    if s.stack.Some? then s.stack.value else []
  }

  lemma DeliveredNext(begun: seq<Pass>, p: Pass)
    ensures Delivered(begun + [p]) == Delivered(begun) + (if p.replay then [] else [p.data])
  {
    assert (begun + [p])[..|begun|] == begun;
  }

  lemma {:induction false} FinishDelivers(s: State)
    requires Midway(s)
    ensures Finish(s).stack.Some? ==>
      s.stack.Some? && Delivered(Finish(s).begun) + Waiting(Finish(s)) == Delivered(s.begun) + Waiting(s)
    decreases QueueLength(s)
  {
    if s.list.Some? && s.stack.Some? && s.stack.value != [] {
      var data, rest := s.stack.value[0], s.stack.value[1..];
      var s' := BeginPass(s.(firing := false, stack := Some(rest)), data, false);
      DeliveredNext(s.begun, Pass(data, false));
      assert (Delivered(s.begun) + [data]) + rest == Delivered(s.begun) + s.stack.value;
      if !(s'.firingIndex < s'.firingLength) {
        FinishDelivers(s');
      }
    }
  }

  lemma LoopDelivers(s: State)
    requires Midway(s) && s.firingIndex >= 0
    ensures Loop(s).stack.Some? ==>
      s.stack.Some? && Delivered(Loop(s).begun) + Waiting(Loop(s)) == Delivered(s.begun) + Waiting(s)
  {
    if !(s.list.Some? && s.firingIndex < s.firingLength) {
      FinishDelivers(s);
    }
  }

  lemma AddDelivers(s: State, fns: seq<nat>)
    requires Ok(s) && Add(s, fns).stack.Some?
    ensures s.stack.Some? && Delivered(Add(s, fns).begun) + Waiting(Add(s, fns)) == Delivered(s.begun) + Waiting(s)
  {
    if s.list.Some? && !s.firing && s.memory.Some? {
      PushAllOrdered(s.list.value, s.nextId, fns, s.flags.unique);
      var (list, nextId) := PushAll(s.list.value, s.nextId, fns, s.flags.unique);
      var s' := s.(list := Some(list), nextId := nextId, firingStart := |s.list.value|);
      DeliveredNext(s.begun, Pass(s.memory.value, true));
      LoopDelivers(BeginPass(s', s.memory.value, true));
    }
  }

  lemma FireDelivers(s: State, data: Data)
    requires Ok(s) && FireWith(s, data).stack.Some?
    ensures s.stack.Some?
    ensures Delivered(FireWith(s, data).begun) + Waiting(FireWith(s, data))
         == Delivered(s.begun) + Waiting(s) + (if Accepts(s) then [data] else [])
  {
    if Accepts(s) && !s.firing {
      DeliveredNext(s.begun, Pass(data, false));
      LoopDelivers(BeginPass(s, data, false));
      assert s.stack.Some? ==> s.stack.value == [];
    } else if Accepts(s) {
      assert Delivered(s.begun) + (s.stack.value + [data]) == Delivered(s.begun) + s.stack.value + [data];
    }
  }

  lemma ReturnDelivers(s: State, isFalse: bool)
    requires Ok(s) && Return(s, isFalse).stack.Some?
    ensures s.stack.Some?
    ensures Delivered(Return(s, isFalse).begun) + Waiting(Return(s, isFalse)) == Delivered(s.begun) + Waiting(s)
  {
    if s.firing {
      if isFalse && s.flags.stopOnFalse {
        FinishDelivers(s.(memory := None));
      } else {
        LoopDelivers(s.(firingIndex := s.firingIndex + 1));
      }
    }
  }

  lemma StepDelivers(s: State, op: Op)
    requires Ok(s) && Apply(s, op).stack.Some?
    ensures s.stack.Some?
    ensures Delivered(Apply(s, op).begun) + Waiting(Apply(s, op))
         == Delivered(s.begun) + Waiting(s) + (if op.FireOp? && Accepts(s) then [op.data] else [])
  {
    match op
    case AddOp(fns) => AddDelivers(s, fns);
    case RemoveOp(fn) =>
    case FireOp(data) => FireDelivers(s, data);
    case LockOp =>
    case DisableOp =>
    case Returned(isFalse) => ReturnDelivers(s, isFalse);
  }

  /** On a repeatable list that is never locked or disabled every accepted fire gets its own
      pass, in the order of the calls to `fire`, nested or not; what waits is the rest, and
      nothing waits once the list is at rest. */
  lemma {:induction false} FiresAreDeliveredInOrder(flags: Flags, ops: seq<Op>)
    requires Run(Init(flags), ops).stack.Some?
    ensures var s := Run(Init(flags), ops);
      && Delivered(s.begun) + Waiting(s) == Accepted(Init(flags), ops)
      && (!s.firing ==> Delivered(s.begun) == Accepted(Init(flags), ops))
    decreases |ops|
  {
    if ops != [] {
      var before := Run(Init(flags), ops[..|ops| - 1]);
      StepDelivers(before, ops[|ops| - 1]);
      FiresAreDeliveredInOrder(flags, ops[..|ops| - 1]);
    }
    var s := Run(Init(flags), ops);
    assert !s.firing ==> Waiting(s) == [];
  }

  /** In every run the calls of one pass carry its data and are never interleaved with those
      of another. */
  lemma PassesNeverInterleave(flags: Flags, ops: seq<Op>)
    ensures var s := Run(Init(flags), ops);
      && (forall i, j | 0 <= i < j < |s.log| :: s.log[i].pass <= s.log[j].pass)
      && (forall i | 0 <= i < |s.log| :: s.log[i].pass < |s.begun| && s.log[i].data == s.begun[s.log[i].pass].data)
  {
    assert LogOk(Run(Init(flags), ops));
  }
}
