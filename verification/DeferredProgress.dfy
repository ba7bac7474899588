/** What the progress callbacks of a deferred hear as long as it is pending. */
module DeferredProgress {
  import opened Optional
  import opened Callbacks
  import opened CallbackPasses
  import opened CallbackMembers
  import opened CallbackDelivery
  import opened Deferred

  /** The data of all calls of `notify`, in order. */
  function Notified(events: seq<Event>): seq<Data> {
    if events == [] then []
    else
      var last := events[|events| - 1];
      Notified(events[..|events| - 1]) + (if last.Notify? then [last.data] else [])
  }

  /** What the progress list sees of the events of a pending deferred. */
  function ProgressOps(events: seq<Event>): seq<Op> {
    if events == [] then []
    else
      var last := events[|events| - 1];
      ProgressOps(events[..|events| - 1])
      + match last
        case Settle(_, _) => []
        case Notify(data) => [FireOp(data)]
        case Register(w, fns) => if w == Progress then [AddOp(fns)] else []
        case Returned(isFalse) => [Op.Returned(isFalse)]
  }

  lemma {:induction false} ProgressOpsArePlain(events: seq<Event>)
    ensures AllPlain(PROGRESS_LIST, ProgressOps(events))
    ensures FireData(ProgressOps(events)) == Notified(events)
    decreases |events|
  {
    hide FireData;
    if events == [] {
      NoFires();
    } else {
      var before, last := ProgressOps(events[..|events| - 1]), events[|events| - 1];
      ProgressOpsArePlain(events[..|events| - 1]);
      match last
      case Settle(_, _) =>
        assert before + [] == before;
      case Notify(data) => OneMoreFire(before, FireOp(data));
      case Register(w, fns) =>
        OneMoreFire(before, AddOp(fns));
        assert before + [] == before;
      case Returned(isFalse) => OneMoreFire(before, Op.Returned(isFalse));
    }
  }

  lemma NoFires()
    ensures FireData([]) == []
  {
  }

  lemma OneMoreFire(ops: seq<Op>, op: Op)
    ensures FireData(ops + [op]) == FireData(ops) + (if op.FireOp? then [op.data] else [])
  {
    assert (ops + [op])[..|ops|] == ops;
  }

  lemma {:induction false} NoneSettled(events: seq<Event>, upto: nat)
    requires FirstSettlement(events).None? && upto <= |events|
    ensures FirstSettlement(events[..upto]).None?
  {
    FirstStaysFirst(events, upto);
  }

  function AfterEvent(l: Callbacks.State, e: Event): Callbacks.State
    requires Ok(l)
  {
    match e
    case Settle(_, _) => l
    case Notify(data) => FireWith(l, data)
    case Register(w, fns) => if w == Progress then Add(l, fns) else l
    case Returned(isFalse) => Return(l, isFalse)
  }

  /** While nothing is settled only the progress list can be in a pass. */
  lemma PendingStep(r: Run, e: Event)
    requires Inv(r) && Quiet(r) && WellFormedEvent(e) && r.outcome.None? && !e.Settle?
    ensures Ok(r.d.progress) && Step(r, e).d.progress == AfterEvent(r.d.progress, e)
  {
    OnlyProgressFires(r);
    QuietStep(r, e);
    ProgressUnderEvent(r, e);
    hide Inv, Quiet, Step, Record, Ok, Return, FireWith, Add;
  }

  lemma OnlyProgressFires(r: Run)
    requires Inv(r) && r.outcome.None?
    ensures Ok(r.d.progress) && forall e :: Quiet(Record(r, e)) || e.Settle?
    ensures r.d.frames == [] ==> !r.d.progress.firing
    ensures r.d.frames != [] ==> r.d.frames[|r.d.frames| - 1] == Progress
  {
    hide Ordered, LogOk, RegsOk;
    var d := r.d;
    assert Get(d, Done) == d.done && Get(d, Fail) == d.fail && Get(d, Progress) == d.progress;
    assert Done in d.frames <==> d.done.firing;
    assert Fail in d.frames <==> d.fail.firing;
    assert Progress in d.frames <==> d.progress.firing;
    if d.frames != [] {
      assert d.frames[|d.frames| - 1] in d.frames;
    }
  }

  /** The progress list of a pending deferred is a callback list on its own. */
  lemma {:induction false} ProgressIsList(events: seq<Event>)
    requires WellFormedEvents(events) && FirstSettlement(events).None?
    ensures RunAll(events).d.progress == Callbacks.Run(Callbacks.Init(PROGRESS_LIST), ProgressOps(events))
    decreases |events|
  {
    hide *;
    StartOrStep(events);
    if events != [] {
      var init, last := events[..|events| - 1], events[|events| - 1];
      ProgressIsList(init);
      OneMoreOp(Callbacks.Init(PROGRESS_LIST), events);
    }
  }

  lemma StartOrStep(events: seq<Event>)
    requires WellFormedEvents(events) && FirstSettlement(events).None?
    ensures events == [] ==>
      RunAll(events).d.progress == Callbacks.Run(Callbacks.Init(PROGRESS_LIST), ProgressOps(events))
    ensures events != [] ==>
      var init, last := events[..|events| - 1], events[|events| - 1];
      && WellFormedEvents(init) && FirstSettlement(init).None? && !last.Settle?
      && var l := RunAll(init).d.progress;
         Ok(l) && RunAll(events).d.progress == AfterEvent(l, last)
  {
    if events != [] {
      var init, last := events[..|events| - 1], events[|events| - 1];
      OutcomeIsFirstSettlement(init);
      PendingStep(RunAll(init), last);
      hide Step, Inv, Quiet, Ok;
    }
  }

  lemma OneMoreOp(l: Callbacks.State, events: seq<Event>)
    requires Ok(l) && events != [] && !events[|events| - 1].Settle?
    ensures var before := Callbacks.Run(l, ProgressOps(events[..|events| - 1]));
      Ok(before) && Callbacks.Run(l, ProgressOps(events)) == AfterEvent(before, events[|events| - 1])
  {
    hide Ok, Return, FireWith, Add, Callbacks.Run;
    var init, last := ProgressOps(events[..|events| - 1]), events[|events| - 1];
    var before := Callbacks.Run(l, init);
    match last
    case Notify(data) => RunLast(l, init, FireOp(data));
    case Register(w, fns) =>
      if w == Progress {
        RunLast(l, init, AddOp(fns));
      } else {
        assert init + [] == init;
      }
    case Returned(isFalse) => RunLast(l, init, Op.Returned(isFalse));
  }

  lemma RunLast(l: Callbacks.State, ops: seq<Op>, op: Op)
    requires Ok(l)
    ensures var before := Callbacks.Run(l, ops);
      && Ok(before) && Callbacks.Run(l, ops + [op]) == Apply(before, op)
  {
    hide Ok, Apply;
    assert (ops + [op])[..|ops|] == ops;
  }

  /** As long as nothing is settled every notification is delivered, in the order of the calls;
      those that have not been wait for the pass in progress. */
  lemma EveryNotificationIsDelivered(events: seq<Event>)
    requires WellFormedEvents(events) && FirstSettlement(events).None?
    ensures var d := RunAll(events).d;
      && Delivered(d.progress.begun) + Waiting(d.progress) == Notified(events)
      && (d.frames == [] ==> Delivered(d.progress.begun) == Notified(events))
  {
    hide Inv, Quiet, RunAll, Delivered, Waiting, Callbacks.Run;
    ProgressIsList(events);
    ProgressOpsArePlain(events);
    FiresAreFireData(PROGRESS_LIST, ProgressOps(events));
    OutcomeIsFirstSettlement(events);
    OnlyProgressFires(RunAll(events));
  }

  /** All that is registered for progress is on the list, in order. */
  lemma {:induction false} ProgressListHas(events: seq<Event>)
    requires WellFormedEvents(events) && FirstSettlement(events).None?
    ensures var l := RunAll(events).d.progress;
      && l.list == Some(EntriesFrom(Registered(events, Progress), 0)) && l.stack.Some?
      && l.nextId == |Registered(events, Progress)| && Ok(l) && l.flags == PROGRESS_LIST
    decreases |events|
  {
    hide *;
    StartOrStep(events);
    if events == [] {
      NothingRegistered();
    } else {
      var init, last := events[..|events| - 1], events[|events| - 1];
      ProgressListHas(init);
      ListAfterEvent(RunAll(init).d.progress, Registered(init, Progress), last);
      RegisteredNext(events);
      ProgressIsOk(events);
    }
  }

  lemma ProgressIsOk(events: seq<Event>)
    requires WellFormedEvents(events)
    ensures Ok(RunAll(events).d.progress) && RunAll(events).d.progress.flags == PROGRESS_LIST
  {
    hide RunAll;
    var r := RunAll(events);
  }

  lemma NothingRegistered()
    ensures WellFormedEvents([])
    ensures var l := RunAll([]).d.progress;
      && l.list == Some(EntriesFrom(Registered([], Progress), 0)) && l.stack.Some?
      && l.nextId == |Registered([], Progress)| && Ok(l) && l.flags == PROGRESS_LIST
  {
    hide Ok, OutcomeList;
  }

  lemma RegisteredNext(events: seq<Event>)
    requires events != []
    ensures var before, last := Registered(events[..|events| - 1], Progress), events[|events| - 1];
      Registered(events, Progress) == if last.Register? && last.w == Progress then before + last.fns else before
  {
  }

  lemma ListAfterEvent(l: Callbacks.State, regs: seq<nat>, e: Event)
    requires Ok(l) && l.flags == PROGRESS_LIST && l.list == Some(EntriesFrom(regs, 0)) && l.stack.Some? && l.nextId == |regs|
    ensures var l', regs' := AfterEvent(l, e), if e.Register? && e.w == Progress then regs + e.fns else regs;
      l'.list == Some(EntriesFrom(regs', 0)) && l'.stack.Some? && l'.nextId == |regs'|
  {
    hide Ordered, Loop, Finish, EntriesFrom;
    match e
    case Settle(_, _) =>
    case Notify(data) =>
      if !l.firing {
        LoopKeepsLists(BeginPass(l, data, false));
      }
    case Register(w, fns) =>
      if w == Progress {
        PushAllPlain(l.list.value, l.nextId, fns);
        EntriesAppend(regs, fns, 0);
        PushAllOrdered(l.list.value, l.nextId, fns, false);
        var list := EntriesFrom(regs + fns, 0);
        if !l.firing && l.memory.Some? {
          var l' := l.(list := Some(list), nextId := l.nextId + |fns|, firingStart := |l.list.value|);
          LoopKeepsLists(BeginPass(l', l.memory.value, true));
        }
      }
    case Returned(isFalse) =>
      if l.firing {
        LoopKeepsLists(l.(firingIndex := l.firingIndex + 1));
      }
  }

  lemma {:induction false} OpAt(events: seq<Event>, p: nat)
    requires p < |events| && events[p].Notify?
    ensures var ops, q := ProgressOps(events), |ProgressOps(events[..p])|;
      q < |ops| && ops[q] == FireOp(events[p].data) && ops[..q] == ProgressOps(events[..p])
    decreases |events|
  {
    var init := events[..|events| - 1];
    if p < |init| {
      assert init[..p] == events[..p];
      OpAt(init, p);
    }
  }

  lemma AtRest(events: seq<Event>)
    requires WellFormedEvents(events) && FirstSettlement(events).None?
    ensures RunAll(events).d.frames == [] ==> !RunAll(events).d.progress.firing
  {
    OutcomeIsFirstSettlement(events);
    OnlyProgressFires(RunAll(events));
  }

  lemma ProgressListBefore(events: seq<Event>, p: nat)
    requires WellFormedEvents(events) && FirstSettlement(events).None? && p < |events| && events[p].Notify?
    ensures var ops, q := ProgressOps(events), |ProgressOps(events[..p])|;
      && q < |ops| && ops[q] == FireOp(events[p].data) && FireData(ops[..q]) == Notified(events[..p])
      && ListAt(PROGRESS_LIST, ops, q) == EntriesFrom(Registered(events[..p], Progress), 0)
  {
    hide RunAll, Callbacks.Run, Ok, ProgressOps, Registered, EntriesFrom;
    OpAt(events, p);
    NoneSettled(events, p);
    ProgressOpsArePlain(events[..p]);
    ProgressIsList(events[..p]);
    ProgressListHas(events[..p]);
  }

  /** Once control is back at the top, every callback registered for progress before a
      notification has been called in the pass of that notification, in order and with its data;
      the passes come in the order of the notifications. */
  lemma NotificationIsHeard(events: seq<Event>, p: nat)
    requires WellFormedEvents(events) && FirstSettlement(events).None?
    requires p < |events| && events[p].Notify? && RunAll(events).d.frames == []
    ensures var l := RunAll(events).d.progress;
      exists n: nat :: n < |l.begun| && l.begun[n] == Pass(events[p].data, false)
        && |Delivered(l.begun[..n])| == |Notified(events[..p])|
        && EntriesFrom(Registered(events[..p], Progress), 0) <= CalledIn(l.log, n)
  {
    hide RunAll, Callbacks.Run, Ok, ProgressOps, Registered, EntriesFrom, Delivered, CalledIn, FireData, Notified;
    var ops, q, l := ProgressOps(events), |ProgressOps(events[..p])|, RunAll(events).d.progress;
    ProgressIsList(events);
    ProgressOpsArePlain(events);
    AtRest(events);
    ProgressListBefore(events, p);
    FireIsHeard(PROGRESS_LIST, ops, q);
    var n: nat :| IsNth(l.begun, n, |FireData(ops[..q])|) && l.begun[n].data == ops[q].data
               && ListAt(PROGRESS_LIST, ops, q) <= CalledIn(l.log, n);
    assert l.begun[n] == Pass(events[p].data, false);
  }

  // ---- Late registrations ----

  /** Once it has been fired the list stays on, and remembers the last notification. */
  ghost predicate Remembers(l: Callbacks.State) {
    Ok(l) && l.flags == PROGRESS_LIST && FlagsObeyed(l) && (l.fired ==> l.list.Some?)
  }

  lemma {:induction false} LoopStaysOn(s: Callbacks.State)
    requires Midway(s) && s.firingIndex >= 0 && s.list.Some? && s.flags == PROGRESS_LIST && FlagsObeyed(s)
    ensures Loop(s).list.Some?
    decreases QueueLength(s), 1
  {
    hide Ordered;
    if !(s.firingIndex < s.firingLength) && s.stack.Some? && s.stack.value != [] {
      DeliveredNext(s.begun, Pass(s.stack.value[0], false));
      LoopStaysOn(BeginPass(s.(firing := false, stack := Some(s.stack.value[1..])), s.stack.value[0], false));
    }
  }

  lemma AddStaysOn(l: Callbacks.State, fns: seq<nat>)
    requires Remembers(l)
    ensures Add(l, fns).fired ==> Add(l, fns).list.Some?
  {
    hide Ordered, Loop, Finish, PushAll, Delivered;
    if l.list.Some? && !l.firing && l.memory.Some? {
      PushAllOrdered(l.list.value, l.nextId, fns, false);
      var (list, nextId) := PushAll(l.list.value, l.nextId, fns, false);
      DeliveredNext(l.begun, Pass(l.memory.value, true));
      LoopStaysOn(BeginPass(l.(list := Some(list), nextId := nextId, firingStart := |l.list.value|), l.memory.value, true));
    }
  }

  lemma RemembersOn(l: Callbacks.State, op: Op)
    requires Remembers(l) && (op.AddOp? || op.FireOp? || op.Returned? || op.LockOp?)
    ensures Remembers(Apply(l, op))
  {
    KeepsOk(l, op);
    StepObeys(l, op);
    hide Ordered, Loop, Finish, PushAll, Delivered, LogOk;
    StaysOn(l, op);
  }

  lemma StaysOn(l: Callbacks.State, op: Op)
    requires Remembers(l) && (op.AddOp? || op.FireOp? || op.Returned? || op.LockOp?)
    ensures Apply(l, op).fired ==> Apply(l, op).list.Some?
  {
    hide Ordered, Loop, Finish, PushAll, Delivered;
    match op
    case AddOp(fns) => AddStaysOn(l, fns);
    case FireOp(data) =>
      if Accepts(l) && !l.firing {
        NothingDelivered();
        DeliveredNext(l.begun, Pass(data, false));
        LoopStaysOn(BeginPass(l, data, false));
      }
    case LockOp =>
    case Returned(isFalse) =>
      if l.firing {
        LoopStaysOn(l.(firingIndex := l.firingIndex + 1));
      }
  }

  lemma TickOnProgress(r: Run)
    requires Inv(r)
    ensures TickRun(r).d.progress == r.d.progress || TickRun(r).d.progress == Lock(r.d.progress)
  {
    hide Inv, Return, Lock, Disable;
  }

  lemma TickRemembers(r: Run)
    requires Inv(r) && Remembers(r.d.progress)
    ensures Remembers(TickRun(r).d.progress)
  {
    hide Inv, Remembers;
    TickOnProgress(r);
    RemembersLock(r.d.progress);
  }

  lemma RemembersLock(l: Callbacks.State)
    requires Remembers(l)
    ensures Remembers(Lock(l))
  {
    RemembersOn(l, LockOp);
    hide Remembers, Lock;
  }

  lemma RecordRemembers(r: Run, e: Event)
    requires Inv(r) && WellFormedEvent(e) && Remembers(r.d.progress)
    ensures Remembers(Record(r, e).d.progress)
  {
    ProgressUnderEvent(r, e);
    hide Inv, Remembers, Record, Apply;
    if OnProgress(r.d, e).Some? {
      RemembersOn(r.d.progress, OnProgress(r.d, e).value);
    }
  }

  lemma StepRemembers(r: Run, e: Event)
    requires Inv(r) && Quiet(r) && WellFormedEvent(e) && Remembers(r.d.progress)
    ensures Remembers(Step(r, e).d.progress)
  {
    hide Inv, Quiet, Remembers, Record, TickRun;
    RecordRemembers(r, e);
    RecordKeeps(r, e);
    var r0 := Record(r, e);
    TickTowardsQuiet(r0);
    TickRemembers(r0);
    var r1 := TickRun(r0);
    TickTowardsQuiet(r1);
    TickRemembers(r1);
    var r2 := TickRun(r1);
    TickTowardsQuiet(r2);
    TickRemembers(r2);
  }

  lemma {:induction false} RunRemembers(events: seq<Event>)
    requires WellFormedEvents(events)
    ensures Remembers(RunAll(events).d.progress)
    decreases |events|
  {
    hide *;
    RunUnfolds(events);
    if events == [] {
      StartRemembers();
    } else {
      RunRemembers(events[..|events| - 1]);
      StepRemembers(RunAll(events[..|events| - 1]), events[|events| - 1]);
    }
  }

  lemma StartRemembers()
    ensures WellFormedEvents([]) && Remembers(RunAll([]).d.progress)
  {
  }

  /** Settled or not, a callback registered for progress after notifications have been delivered
      is called at once with the last of them. */
  lemma LateRegistrationHears(events: seq<Event>, fns: seq<nat>)
    requires WellFormedEvents(events) && RunAll(events).d.frames == []
    requires Delivered(RunAll(events).d.progress.begun) != []
    requires fns != [] && WellFormedEvent(Register(Progress, fns))
    ensures WellFormedEvents(events + [Register(Progress, fns)])
    ensures var l, l' := RunAll(events).d.progress, RunAll(events + [Register(Progress, fns)]).d.progress;
      var data := Delivered(l.begun)[|Delivered(l.begun)| - 1];
      && l'.begun == l.begun + [Pass(data, true)]
      && l'.log == l.log + [Call(Entry(fns[0], l.nextId), data, |l.begun|)]
  {
    hide *;
    var r := RunAll(events);
    RegisterLast(events, fns);
    RunUnfolds(events + [Register(Progress, fns)]);
    RunRemembers(events);
    RegisterIsAdd(r, fns);
    NotFiring(r);
    LateAddCalls(r.d.progress, fns);
  }

  lemma RegisterLast(events: seq<Event>, fns: seq<nat>)
    requires WellFormedEvents(events) && WellFormedEvent(Register(Progress, fns))
    ensures var longer := events + [Register(Progress, fns)];
      && longer != [] && longer[..|longer| - 1] == events && longer[|longer| - 1] == Register(Progress, fns)
      && WellFormedEvents(longer)
  {
    assert (events + [Register(Progress, fns)])[..|events|] == events;
  }

  lemma RegisterIsAdd(r: Run, fns: seq<nat>)
    requires Inv(r) && Quiet(r) && WellFormedEvent(Register(Progress, fns))
    ensures Step(r, Register(Progress, fns)).d.progress == Add(r.d.progress, fns)
  {
    hide *;
    InvParts(r);
    RegisterProgressKeeps(r, fns);
    QuietStep(r, Register(Progress, fns));
    ProgressUnderEvent(r, Register(Progress, fns));
    RegistersOnProgress(r.d, fns);
  }

  lemma RegistersOnProgress(d: Machine, fns: seq<nat>)
    ensures OnProgress(d, Register(Progress, fns)) == Some(AddOp(fns))
    ensures forall l | Ok(l) :: Apply(l, AddOp(fns)) == Add(l, fns)
  {
    hide Ok, Add;
  }

  lemma NotFiring(r: Run)
    requires Inv(r) && r.d.frames == []
    ensures !r.d.progress.firing
  {
    hide Ok, OnceEach;
    assert Get(r.d, Progress) == r.d.progress;
  }

  lemma LateAddCalls(l: Callbacks.State, fns: seq<nat>)
    requires Remembers(l) && !l.firing && Delivered(l.begun) != [] && fns != []
    ensures var l', data := Add(l, fns), Delivered(l.begun)[|Delivered(l.begun)| - 1];
      && l'.begun == l.begun + [Pass(data, true)]
      && l'.log == l.log + [Call(Entry(fns[0], l.nextId), data, |l.begun|)]
  {
    hide Ordered, LogOk, Loop, Finish;
    assert l.begun != [] && l.fired && l.memory.Some?;
    PushAllPlain(l.list.value, l.nextId, fns);
    var (list, nextId) := PushAll(l.list.value, l.nextId, fns, false);
    BeginCalls(l.(list := Some(list), nextId := nextId, firingStart := |l.list.value|), l.memory.value, true);
  }
}
