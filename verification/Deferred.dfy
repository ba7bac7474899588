/** `jQuery.Deferred`: three callback lists whose first entries set the state and switch
    the other lists off, with calls on the deferred allowed from inside any callback. */
module Deferred {
  import opened Optional
  import opened Callbacks
  import opened CallbackPasses
  import opened CallbackMembers

  datatype Which = Done | Fail | Progress

  datatype Settlement = Unsettled | Resolved | Rejected

  // The functions `Deferred` itself adds to the done and fail lists, in this order.
  const SET_STATE: nat := 0
  const DISABLE_OTHER: nat := 1
  const LOCK_PROGRESS: nat := 2
  const BUILT_IN: nat := 3

  const OUTCOME_LIST := Flags(true, true, false, false)
  const PROGRESS_LIST := Flags(false, true, false, false)

  /** `frames` are the lists in the middle of a pass, the innermost last. */
  datatype Machine = Machine(done: Callbacks.State, fail: Callbacks.State, progress: Callbacks.State,
                         state: Settlement, frames: seq<Which>)

  function Get(d: Machine, w: Which): Callbacks.State {
    match w
    case Done => d.done
    case Fail => d.fail
    case Progress => d.progress
  }

  /** Replace one list; a pass that begins or ends enters or leaves `frames`. */
  function Put(d: Machine, w: Which, l: Callbacks.State): Machine {
    var frames :=
      if l.firing && !Get(d, w).firing then d.frames + [w]
      else if !l.firing && Get(d, w).firing && d.frames != [] then d.frames[..|d.frames| - 1]
      else d.frames;
    match w
    case Done => d.(done := l, frames := frames)
    case Fail => d.(fail := l, frames := frames)
    case Progress => d.(progress := l, frames := frames)
  }

  function OutcomeList(): Callbacks.State {
    Callbacks.Add(Callbacks.Init(OUTCOME_LIST), [SET_STATE, DISABLE_OTHER, LOCK_PROGRESS])
  }

  function Init(): Machine {
    Machine(OutcomeList(), OutcomeList(), Callbacks.Init(PROGRESS_LIST), Unsettled, [])
  }

  function Other(w: Which): Which {
    if w == Done then Fail else Done
  }

  /** The function now running, when it is one of Deferred's own. */
  function RunningBuiltIn(d: Machine): Option<(Which, nat)> {
    if d.frames == [] then None
    else
      var w := d.frames[|d.frames| - 1];
      var log := Get(d, w).log;
      if w == Progress || log == [] || log[|log| - 1].entry.id >= BUILT_IN then None
      else Some((w, log[|log| - 1].entry.fn))
  }

  ghost predicate ListsOk(d: Machine) {
    Ok(d.done) && Ok(d.fail) && Ok(d.progress)
  }

  /** The machine after the effect of a built-in function, before it returns. */
  function Effect(d: Machine, w: Which, fn: nat): Machine {
    if fn == SET_STATE then d.(state := StateAfter(w))
    else if fn == DISABLE_OTHER then Put(d, Other(w), Disable(Get(d, Other(w))))
    else Put(d, Progress, Lock(d.progress))
  }

  /** Carry out a built-in function and return from it. */
  function RunBuiltIn(d: Machine, w: Which, fn: nat): Machine
    requires ListsOk(d) && w != Progress
  {
    var d' := Effect(d, w, fn);
    Put(d', w, Return(Get(d', w), false))
  }

  /** One built-in function, if one is running. */
  function Tick(d: Machine): Machine
    requires ListsOk(d)
  {
    match RunningBuiltIn(d)
    case None => d
    case Some((w, fn)) => RunBuiltIn(d, w, fn)
  }

  /** What user code may do, at top level or inside a callback; `Returned` ends the callback
      it is in. */
  datatype Event =
    | Settle(w: Which, data: Data)
    | Notify(data: Data)
    | Register(w: Which, fns: seq<nat>)
    | Returned(isFalse: bool)

  predicate WellFormedEvent(e: Event) {
    && (e.Settle? ==> e.w != Progress)
    && (e.Register? ==> forall i | 0 <= i < |e.fns| :: e.fns[i] >= BUILT_IN)
  }

  function Act(d: Machine, e: Event): Machine
    requires ListsOk(d)
  {
    match e
    case Settle(w, data) => Put(d, w, FireWith(Get(d, w), data))
    case Notify(data) => Put(d, Progress, FireWith(d.progress, data))
    case Register(w, fns) => Put(d, w, Callbacks.Add(Get(d, w), fns))
    case Returned(isFalse) =>
      if d.frames == [] then d
      else
        var w := d.frames[|d.frames| - 1];
        Put(d, w, Return(Get(d, w), isFalse))
  }

  // ---- One outcome list: every registration is called once, in order ----

  /** The calls made so far followed by those still owed are all registrations, in order. */
  ghost predicate OnceEach(l: Callbacks.State, regs: seq<nat>) {
    && Ok(l) && l.flags == OUTCOME_LIST && l.nextId == |regs|
    && |regs| >= BUILT_IN
    && (forall i | 0 <= i < |l.log| :: i < |regs| && l.log[i].entry == Entry(regs[i], i))
    && (forall i | 0 <= i < |l.begun| :: l.begun[i].data == l.begun[0].data)
    && match l.list
       case None => !l.fired && !l.firing && l.log == []
       case Some(list) =>
         if !l.fired then
           l.log == [] && l.memory.None? && list == EntriesFrom(regs, 0)
         else
           && l.memory.Some?
           && if l.firing
              then |l.log| > 0 && |l.log| <= |regs| && list[l.firingIndex + 1..] == EntriesFrom(regs[|l.log|..], |l.log|)
              else |l.log| == |regs| && list == []
  }

  lemma CallsNextOwed(l: Callbacks.State, regs: seq<nat>, k: nat)
    requires k < |regs| && l.list.Some? && 0 <= l.firingIndex < |l.list.value|
    requires l.list.value[l.firingIndex..] == EntriesFrom(regs[k..], k)
    ensures l.list.value[l.firingIndex] == Entry(regs[k], k)
    ensures l.list.value[l.firingIndex + 1..] == EntriesFrom(regs[k + 1..], k + 1)
  {
    var rest := l.list.value[l.firingIndex..];
    assert rest[0] == l.list.value[l.firingIndex];
    assert rest[1..] == l.list.value[l.firingIndex + 1..];
  }

  /** At the loop test, with entries from `|log|` on still owed. */
  lemma LoopKeepsOnceEach(l: Callbacks.State, regs: seq<nat>)
    requires Midway(l) && l.firingIndex >= 0 && l.flags == OUTCOME_LIST && l.nextId == |regs| >= BUILT_IN
    requires forall i | 0 <= i < |l.log| :: i < |regs| && l.log[i].entry == Entry(regs[i], i)
    requires forall i | 0 <= i < |l.begun| :: l.begun[i].data == l.begun[0].data
    requires l.list.Some? && l.memory.Some? && |l.log| <= |regs|
    requires l.list.value[l.firingIndex..] == EntriesFrom(regs[|l.log|..], |l.log|)
    ensures OnceEach(Loop(l), regs)
    ensures Loop(l).begun == l.begun && l.log <= Loop(l).log && Loop(l).fired
  {
    hide Ordered, LogOk;
    LoopOk(l);
    if l.firingIndex < l.firingLength {
      CallsNextOwed(l, regs, |l.log|);
    } else {
      assert EntriesFrom(regs[|l.log|..], |l.log|) == [];
      assert |regs[|l.log|..]| == 0;
    }
    hide EntriesFrom;
  }

  lemma EntriesAppend(a: seq<nat>, b: seq<nat>, id: nat)
    ensures EntriesFrom(a + b, id) == EntriesFrom(a, id) + EntriesFrom(b, id + |a|)
  {
  }

  lemma AddBeforeOutcome(l: Callbacks.State, regs: seq<nat>, fns: seq<nat>)
    requires OnceEach(l, regs) && l.list.Some? && !l.fired
    ensures OnceEach(Callbacks.Add(l, fns), regs + fns)
  {
    KeepsOk(l, AddOp(fns));
    PushAllPlain(l.list.value, l.nextId, fns);
    EntriesAppend(regs, fns, 0);
  }

  lemma AddDuringPass(l: Callbacks.State, regs: seq<nat>, fns: seq<nat>)
    requires OnceEach(l, regs) && l.list.Some? && l.firing
    ensures OnceEach(Callbacks.Add(l, fns), regs + fns)
  {
    hide Ordered, LogOk, Loop, Finish, PushAll, EntriesFrom;
    AddOk(l, fns);
    var list, owed := l.list.value, regs[|l.log|..];
    PushAllPlain(list, l.nextId, fns);
    EntriesAppend(owed, fns, |l.log|);
    assert (regs + fns)[|l.log|..] == owed + fns;
    var more := EntriesFrom(fns, l.nextId);
    assert (list + more)[l.firingIndex + 1..] == list[l.firingIndex + 1..] + more;
    hide Ok;
  }

  function ReplayFor(l: Callbacks.State, fns: seq<nat>): Callbacks.State
    requires l.memory.Some?
  {
    BeginPass(l.(list := Some(EntriesFrom(fns, l.nextId)), nextId := l.nextId + |fns|), l.memory.value, true)
  }

  lemma EntriesOrdered(fns: seq<nat>, id: nat)
    ensures Ordered(EntriesFrom(fns, id), id + |fns|)
  {
  }

  lemma ReplayIsMidway(l: Callbacks.State, fns: seq<nat>)
    requires Ok(l) && l.fired && l.memory.Some?
    ensures Midway(ReplayFor(l, fns)) && ReplayFor(l, fns).firingIndex == 0
  {
    EntriesOrdered(fns, l.nextId);
    var b := ReplayFor(l, fns);
    assert LogOk(b);
  }

  lemma AddAtRestIsReplay(l: Callbacks.State, fns: seq<nat>)
    requires Ok(l) && l.list == Some([]) && l.memory.Some? && !l.firing && !l.flags.unique
    ensures Midway(ReplayFor(l, fns)) && Callbacks.Add(l, fns) == Loop(ReplayFor(l, fns))
  {
    ReplayIsMidway(l, fns);
    PushAllPlain([], l.nextId, fns);
    assert [] + EntriesFrom(fns, l.nextId) == EntriesFrom(fns, l.nextId);
    var l' := l.(list := Some(EntriesFrom(fns, l.nextId)), nextId := l.nextId + |fns|);
    assert l'.(firingStart := 0) == l';
  }

  lemma AddAfterPass(l: Callbacks.State, regs: seq<nat>, fns: seq<nat>)
    requires OnceEach(l, regs) && l.list.Some? && l.fired && !l.firing
    ensures OnceEach(Callbacks.Add(l, fns), regs + fns)
    ensures l.begun <= Callbacks.Add(l, fns).begun && Callbacks.Add(l, fns).fired
    ensures l.log <= Callbacks.Add(l, fns).log
  {
    ReplayIsMidway(l, fns);
    AddAtRestIsReplay(l, fns);
    var b := ReplayFor(l, fns);
    assert (regs + fns)[|l.log|..] == fns && b.list.value[0..] == b.list.value;
    LoopKeepsOnceEach(b, regs + fns);
  }

  lemma AddKeepsOnceEach(l: Callbacks.State, regs: seq<nat>, fns: seq<nat>)
    requires OnceEach(l, regs)
    ensures OnceEach(Callbacks.Add(l, fns), if l.list.Some? then regs + fns else regs)
    ensures Callbacks.Add(l, fns).fired == l.fired && l.log <= Callbacks.Add(l, fns).log
    ensures l.begun <= Callbacks.Add(l, fns).begun
  {
    if l.list.Some? {
      if !l.fired {
        AddBeforeOutcome(l, regs, fns);
      } else if l.firing {
        AddDuringPass(l, regs, fns);
      } else {
        AddAfterPass(l, regs, fns);
      }
    }
  }

  lemma ReturnKeepsOnceEach(l: Callbacks.State, regs: seq<nat>, isFalse: bool)
    requires OnceEach(l, regs)
    ensures OnceEach(Return(l, isFalse), regs)
    ensures Return(l, isFalse).fired == l.fired && l.log <= Return(l, isFalse).log && Return(l, isFalse).begun == l.begun
  {
    hide Loop, Finish, EntriesFrom, Ordered;
    if l.firing {
      LoopKeepsOnceEach(l.(firingIndex := l.firingIndex + 1), regs);
    }
  }

  lemma FireKeepsOnceEach(l: Callbacks.State, regs: seq<nat>, data: Data)
    requires OnceEach(l, regs)
    ensures OnceEach(FireWith(l, data), regs)
    ensures Accepts(l) <==> !l.fired && l.list.Some?
    ensures Accepts(l) ==> FireWith(l, data).fired && FireWith(l, data).firing && FireWith(l, data).begun == [Pass(data, false)]
    ensures Accepts(l) ==> |FireWith(l, data).log| == 1
    ensures !Accepts(l) ==> FireWith(l, data) == l
  {
    hide Finish, Ordered;
    if Accepts(l) {
      var b := BeginPass(l, data, false);
      assert b.list.value[0..] == b.list.value && regs[0..] == regs;
      LoopKeepsOnceEach(b, regs);
    }
  }

  // ---- The three lists together ----

  /** The machine with its history: what was registered on the two outcome lists, and the
      first settlement let through. */
  datatype Run = Run(d: Machine, doneRegs: seq<nat>, failRegs: seq<nat>, outcome: Option<(Which, Data)>)

  function Regs(r: Run, w: Which): seq<nat> {
    if w == Done then r.doneRegs else r.failRegs
  }

  function BuiltIns(): seq<nat> {
    [SET_STATE, DISABLE_OTHER, LOCK_PROGRESS]
  }

  /** How many of the built-in functions of a fired outcome list have returned. */
  function Completed(l: Callbacks.State): nat {
    var n := if l.firing && l.log != [] then |l.log| - 1 else |l.log|;
    if n > BUILT_IN then BUILT_IN else n
  }

  function StateAfter(w: Which): Settlement {
    if w == Done then Resolved else Rejected
  }

  ghost predicate FramesOk(d: Machine) {
    && (forall i, j | 0 <= i < j < |d.frames| :: d.frames[i] != d.frames[j])
    && (forall w :: w in d.frames <==> Get(d, w).firing)
  }

  ghost predicate RegsOk(regs: seq<nat>) {
    |regs| >= BUILT_IN && regs[..BUILT_IN] == BuiltIns()
  }

  ghost predicate OutcomeOk(r: Run) {
    match r.outcome
    case None =>
      && !r.d.done.fired && !r.d.fail.fired && r.d.done.list.Some? && r.d.fail.list.Some?
      && r.d.state == Unsettled
    case Some((w, data)) =>
      var l, c := Get(r.d, w), Completed(Get(r.d, w));
      && w != Progress && l.fired && l.list.Some? && l.begun != [] && l.begun[0].data == data && |l.log| >= 1
      && !Get(r.d, Other(w)).fired
      && r.d.state == (if c >= 1 then StateAfter(w) else Unsettled)
      && (c >= 2 <==> Get(r.d, Other(w)).list.None?)
      && (c >= 3 ==> !Accepts(r.d.progress))
      && (c < 3 ==> r.d.frames != [] && r.d.frames[|r.d.frames| - 1] == w)
  }

  ghost predicate Inv(r: Run) {
    && OnceEach(r.d.done, r.doneRegs) && OnceEach(r.d.fail, r.failRegs)
    && RegsOk(r.doneRegs) && RegsOk(r.failRegs)
    && Ok(r.d.progress) && r.d.progress.flags == PROGRESS_LIST
    && FramesOk(r.d) && OutcomeOk(r)
  }

  /** No built-in function is running: control is with the user. */
  ghost predicate Quiet(r: Run) {
    r.outcome.Some? ==> Completed(Get(r.d, r.outcome.value.0)) == BUILT_IN
  }

  lemma OnceEachData(l: Callbacks.State, regs: seq<nat>)
    requires OnceEach(l, regs)
    ensures forall i | 0 <= i < |l.log| :: l.log[i].data == l.begun[0].data
  {
  }

  lemma OutcomeListStart()
    ensures OnceEach(OutcomeList(), BuiltIns())
    ensures OutcomeList().list.Some? && !OutcomeList().fired && !OutcomeList().firing
  {
    PushAllPlain([], 0, BuiltIns());
    assert [] + EntriesFrom(BuiltIns(), 0) == EntriesFrom(BuiltIns(), 0);
    KeepsOk(Callbacks.Init(OUTCOME_LIST), AddOp(BuiltIns()));
  }

  lemma InitInv()
    ensures Inv(Run(Init(), BuiltIns(), BuiltIns(), None)) && Quiet(Run(Init(), BuiltIns(), BuiltIns(), None))
  {
    OutcomeListStart();
  }

  lemma PushFrame(d: Machine, w: Which, l: Callbacks.State)
    requires FramesOk(d) && !Get(d, w).firing && l.firing
    ensures FramesOk(Put(d, w, l)) && Put(d, w, l).frames == d.frames + [w]
  {
    hide Ok;
    var d' := Put(d, w, l);
    forall v ensures v in d'.frames <==> Get(d', v).firing {
      assert v in d'.frames <==> v in d.frames || v == w;
    }
  }

  lemma PopFrame(d: Machine, w: Which, l: Callbacks.State)
    requires FramesOk(d) && Get(d, w).firing && !l.firing && d.frames != [] && d.frames[|d.frames| - 1] == w
    ensures FramesOk(Put(d, w, l)) && Put(d, w, l).frames == d.frames[..|d.frames| - 1]
  {
    hide Ok;
    var d' := Put(d, w, l);
    assert d.frames == d'.frames + [w];
    forall i | 0 <= i < |d'.frames| ensures d'.frames[i] != w {
      assert d.frames[i] != d.frames[|d.frames| - 1];
    }
    forall v ensures v in d'.frames <==> Get(d', v).firing {
      assert v in d.frames <==> v in d'.frames || v == w;
    }
  }

  /** Replacing one list keeps the frames right when its pass is the innermost or it is at rest. */
  lemma PutFrames(d: Machine, w: Which, l: Callbacks.State)
    requires FramesOk(d)
    requires Get(d, w).firing && !l.firing ==> d.frames != [] && d.frames[|d.frames| - 1] == w
    ensures FramesOk(Put(d, w, l))
  {
    if l.firing && !Get(d, w).firing {
      PushFrame(d, w, l);
    } else if !l.firing && Get(d, w).firing {
      PopFrame(d, w, l);
    } else {
      assert Put(d, w, l).frames == d.frames;
    }
  }

  lemma LastLogged(l: Callbacks.State, regs: seq<nat>)
    requires OnceEach(l, regs) && RegsOk(regs) && l.firing
    ensures l.log != [] && l.log[|l.log| - 1].entry.id == |l.log| - 1
    ensures |l.log| <= BUILT_IN ==> l.log[|l.log| - 1].entry.fn == BuiltIns()[|l.log| - 1]
  {
    assert l.log[|l.log| - 1].entry == Entry(regs[|l.log| - 1], |l.log| - 1);
    assert |l.log| <= BUILT_IN ==> regs[|l.log| - 1] == regs[..BUILT_IN][|l.log| - 1];
  }

  lemma FiringIsOutcome(r: Run, v: Which)
    requires Inv(r) && v != Progress && Get(r.d, v).firing
    ensures r.outcome.Some? && r.outcome.value.0 == v
  {
  }

  /** While a built-in function is outstanding it is the one running. */
  lemma RunningIs(r: Run)
    requires Inv(r)
    ensures RunningBuiltIn(r.d) ==
      match r.outcome
      case None => None
      case Some((w, _)) =>
        if Completed(Get(r.d, w)) < BUILT_IN then Some((w, BuiltIns()[Completed(Get(r.d, w))])) else None
  {
    hide Ok;
    if r.d.frames != [] {
      var v := r.d.frames[|r.d.frames| - 1];
      assert v in r.d.frames && Get(r.d, v).firing;
      if v != Progress {
        LastLogged(Get(r.d, v), Regs(r, v));
        FiringIsOutcome(r, v);
      }
    }
  }

  ghost function TickRun(r: Run): Run
    requires Inv(r)
  {
    r.(d := Tick(r.d))
  }

  lemma LockRefuses(l: Callbacks.State)
    requires Ok(l) && !l.flags.stopOnFalse
    ensures Ok(Lock(l)) && !Accepts(Lock(l)) && Lock(l).flags == l.flags
    ensures l.flags.memory && l.firing && l.memory.Some? ==> Lock(l).firing
  {
    KeepsOk(l, LockOp);
  }

  lemma EffectOnLists(d: Machine, w: Which, fn: nat)
    requires w != Progress && FramesOk(d) && Ok(d.progress) && d.progress.flags == PROGRESS_LIST
    requires !Get(d, Other(w)).firing
    ensures var d' := Effect(d, w, fn);
      && Get(d', w) == Get(d, w) && d'.frames == d.frames && FramesOk(d')
      && Get(d', Other(w)) == (if fn == DISABLE_OTHER then Disable(Get(d, Other(w))) else Get(d, Other(w)))
      && d'.progress == (if fn == SET_STATE || fn == DISABLE_OTHER then d.progress else Lock(d.progress))
      && d'.state == (if fn == SET_STATE then StateAfter(w) else d.state)
  {
    LockRefuses(d.progress);
    if fn == DISABLE_OTHER {
      PutFrames(d, Other(w), Disable(Get(d, Other(w))));
    } else if fn != SET_STATE {
      assert d.progress.firing ==> d.progress.fired && d.progress.begun != [];
      PutFrames(d, Progress, Lock(d.progress));
    }
  }

  lemma DisableKeepsOnceEach(l: Callbacks.State, regs: seq<nat>)
    requires OnceEach(l, regs) && !l.fired
    ensures OnceEach(Disable(l), regs)
  {
  }

  /** Returning from a callback completes it. */
  lemma ReturnCounts(l: Callbacks.State, regs: seq<nat>)
    requires OnceEach(l, regs) && l.firing && |l.log| <= BUILT_IN
    ensures var l' := Return(l, false);
      && Completed(l') == Completed(l) + 1
      && (Completed(l') < BUILT_IN ==> l'.firing)
      && l'.list.Some? && l'.fired && l'.begun == l.begun && l.log <= l'.log
  {
    ReturnKeepsOnceEach(l, regs, false);
    var l1 := l.(firingIndex := l.firingIndex + 1);
    assert |l.list.value[l.firingIndex + 1..]| == |regs| - |l.log|;
    if l1.firingIndex < l1.firingLength {
      assert |Loop(l1).log| == |l.log| + 1 && Loop(l1).firing;
    } else {
      assert Loop(l1).log == l.log && !Loop(l1).firing;
    }
  }

  lemma TopIsFiring(d: Machine)
    requires FramesOk(d) && d.frames != []
    ensures Get(d, d.frames[|d.frames| - 1]).firing
  {
    assert d.frames[|d.frames| - 1] in d.frames;
  }

  lemma TickIs(r: Run)
    requires Inv(r) && r.outcome.Some? && Completed(Get(r.d, r.outcome.value.0)) < BUILT_IN
    ensures var w := r.outcome.value.0;
      var l, fn := Get(r.d, w), BuiltIns()[Completed(Get(r.d, w))];
      && w != Progress && l.firing && l.fired && |l.log| <= BUILT_IN
      && !Get(r.d, Other(w)).firing && !Get(r.d, Other(w)).fired
      && Get(Effect(r.d, w, fn), w) == l
      && l.begun != [] && CursorOk(l) && l.firingIndex >= -1
      && r.d.frames != [] && r.d.frames[|r.d.frames| - 1] == w
      && Tick(r.d) == Put(Effect(r.d, w, fn), w, Return(l, false))
  {
    InvParts(r);
    RunningIs(r);
    TopIsFiring(r.d);
    hide Inv, Ok, OnceEach, RegsOk, FramesOk, RunningBuiltIn, Accepts, Lock, Disable, Loop, Finish;
    UnfiredIsIdle(Get(r.d, Other(r.outcome.value.0)));
  }

  lemma UnfiredIsIdle(l: Callbacks.State)
    requires Ok(l) && !l.fired
    ensures !l.firing
  {
    hide Ordered, LogOk;
  }

  /** The account of the outcome after a built-in function has returned. */
  lemma TickOutcome(r: Run, l': Callbacks.State)
    requires OutcomeOk(r) && r.outcome.Some? && Completed(Get(r.d, r.outcome.value.0)) < BUILT_IN
    requires var w := r.outcome.value.0;
      var l, fn := Get(r.d, w), BuiltIns()[Completed(Get(r.d, w))];
      && w != Progress && l.firing && Effect(r.d, w, fn).frames == r.d.frames
      && (fn == LOCK_PROGRESS ==> !Accepts(Effect(r.d, w, fn).progress))
      && Completed(l') == Completed(l) + 1 && (Completed(l') < BUILT_IN ==> l'.firing)
      && l'.list.Some? && l'.fired && l'.begun == l.begun && l.log <= l'.log
    ensures var w := r.outcome.value.0;
      OutcomeOk(r.(d := Put(Effect(r.d, w, BuiltIns()[Completed(Get(r.d, w))]), w, l')))
  {
  }

  lemma OnceEachOk(l: Callbacks.State, regs: seq<nat>)
    requires OnceEach(l, regs)
    ensures Ok(l)
  {
    hide Ok;
  }

  lemma OkCursor(l: Callbacks.State)
    requires Ok(l)
    ensures l.firing ==> l.begun != [] && CursorOk(l) && l.firingIndex >= -1
  {
    hide Ordered, LogOk;
  }

  /** The parts of the invariant, for one list. */
  lemma InvParts(r: Run)
    requires Inv(r)
    ensures FramesOk(r.d) && OutcomeOk(r) && RegsOk(r.doneRegs) && RegsOk(r.failRegs)
    ensures Ok(r.d.done) && Ok(r.d.fail) && Ok(r.d.progress) && r.d.progress.flags == PROGRESS_LIST
    ensures forall w: Which | w != Progress :: OnceEach(Get(r.d, w), Regs(r, w))
    ensures forall w: Which :: Get(r.d, w).firing ==>
      Get(r.d, w).begun != [] && CursorOk(Get(r.d, w)) && Get(r.d, w).firingIndex >= -1
  {
    hide Ok, OnceEach, FramesOk, OutcomeOk, RegsOk, CursorOk;
    OnceEachOk(r.d.done, r.doneRegs);
    OnceEachOk(r.d.fail, r.failRegs);
    forall w: Which ensures Get(r.d, w).firing ==>
      Get(r.d, w).begun != [] && CursorOk(Get(r.d, w)) && Get(r.d, w).firingIndex >= -1
    {
      OkCursor(Get(r.d, w));
    }
  }

  lemma InvWhole(r: Run, w: Which)
    requires w != Progress && OnceEach(Get(r.d, w), Regs(r, w)) && OnceEach(Get(r.d, Other(w)), Regs(r, Other(w)))
    requires RegsOk(r.doneRegs) && RegsOk(r.failRegs)
    requires Ok(r.d.progress) && r.d.progress.flags == PROGRESS_LIST && FramesOk(r.d) && OutcomeOk(r)
    ensures Inv(r)
  {
    hide Ok, OnceEach, FramesOk, OutcomeOk, RegsOk;
  }

  /** A built-in function does its part and hands on to the next callback. */
  lemma TickKeeps(r: Run)
    requires Inv(r) && r.outcome.Some? && Completed(Get(r.d, r.outcome.value.0)) < BUILT_IN
    ensures Inv(TickRun(r))
    ensures Completed(Get(Tick(r.d), r.outcome.value.0)) == Completed(Get(r.d, r.outcome.value.0)) + 1
  {
    hide Loop, Finish, Return, Ok, OnceEach, RegsOk, FramesOk, OutcomeOk, Inv, Completed, Effect, Tick, Accepts, Lock, CursorOk;
    TickIs(r);
    InvParts(r);
    var w, d := r.outcome.value.0, r.d;
    var l, other, fn := Get(d, w), Get(d, Other(w)), BuiltIns()[Completed(Get(d, w))];
    EffectOnLists(d, w, fn);
    LockRefuses(d.progress);
    DisableKeepsOnceEach(other, Regs(r, Other(w)));
    ReturnKeepsOnceEach(l, Regs(r, w), false);
    ReturnCounts(l, Regs(r, w));
    var d' := Effect(d, w, fn);
    PutFrames(d', w, Return(l, false));
    TickOutcome(r, Return(l, false));
    InvWhole(TickRun(r), w);
  }

  // ---- One event of the user ----

  ghost function Record(r: Run, e: Event): Run
    requires Inv(r)
  {
    var d := Act(r.d, e);
    match e
    case Settle(w, data) =>
      if r.outcome.None? then r.(d := d, outcome := Some((w, data))) else r.(d := d)
    case Notify(_) => r.(d := d)
    case Register(w, fns) =>
      if w == Done && r.d.done.list.Some? then r.(d := d, doneRegs := r.doneRegs + fns)
      else if w == Fail && r.d.fail.list.Some? then r.(d := d, failRegs := r.failRegs + fns)
      else r.(d := d)
    case Returned(_) => r.(d := d)
  }

  lemma LoopWithoutStack(s: Callbacks.State)
    requires s.begun != [] && CursorOk(s) && s.firingIndex >= 0 && s.stack.None?
    ensures Loop(s).stack.None? && Loop(s).begun == s.begun && Loop(s).fired == s.fired && s.log <= Loop(s).log
  {
  }

  /** A list that refuses fires goes on refusing, and begins no pass but replays. */
  lemma RefusalLasts(l: Callbacks.State, op: Op)
    requires Ok(l) && !Accepts(l)
    ensures !Accepts(Apply(l, op)) && Apply(l, op).flags == l.flags
    ensures Delivered(Apply(l, op).begun) == Delivered(l.begun)
  {
    KeepsOk(l, op);
    match op
    case AddOp(fns) =>
      if l.list.Some? && !l.firing && l.memory.Some? {
        var (list, nextId) := PushAll(l.list.value, l.nextId, fns, l.flags.unique);
        var b := BeginPass(l.(list := Some(list), nextId := nextId, firingStart := |l.list.value|), l.memory.value, true);
        DeliveredNext(l.begun, Pass(l.memory.value, true));
        LoopWithoutStack(b);
        assert Callbacks.Add(l, fns) == Loop(b);
      }
    case RemoveOp(fn) =>
    case FireOp(data) =>
    case LockOp =>
    case DisableOp =>
    case Returned(isFalse) =>
      if l.firing && !(isFalse && l.flags.stopOnFalse) {
        LoopWithoutStack(l.(firingIndex := l.firingIndex + 1));
      }
  }

  /** After the outcome, a change of one list that respects its role keeps the account. */
  lemma OutcomeKept(r: Run, v: Which, l': Callbacks.State)
    requires OutcomeOk(r) && Quiet(r) && r.outcome.Some?
    requires var w := r.outcome.value.0;
      if v == w then
        l'.fired && l'.list.Some? && l'.begun != [] && l'.begun[0].data == Get(r.d, w).begun[0].data
        && Completed(l') == BUILT_IN && |l'.log| >= 1
      else if v == Progress then !Accepts(l')
      else l' == Get(r.d, v)
    ensures OutcomeOk(r.(d := Put(r.d, v, l'))) && Quiet(r.(d := Put(r.d, v, l')))
  {
  }

  lemma NoOutcomeKept(r: Run, v: Which, l': Callbacks.State)
    requires OutcomeOk(r) && r.outcome.None?
    requires v != Progress ==> !l'.fired && l'.list.Some?
    ensures OutcomeOk(r.(d := Put(r.d, v, l')))
  {
  }

  /** A disabled list stays as it is. */
  lemma DisabledIsInert(l: Callbacks.State, fns: seq<nat>)
    requires l.list.None?
    ensures Callbacks.Add(l, fns) == l
  {
  }

  /** What must hold of the outcome lists when the first settlement has been let through. */
  lemma OutcomeBegins(r: Run, w: Which, data: Data, l': Callbacks.State)
    requires OutcomeOk(r) && r.outcome.None? && w != Progress && !Get(r.d, w).firing
    requires l'.fired && l'.firing && l'.list.Some? && l'.begun == [Pass(data, false)] && |l'.log| == 1
    ensures OutcomeOk(r.(d := Put(r.d, w, l'), outcome := Some((w, data)))) && Completed(l') == 0
  {
  }

  lemma FirstSettleKeeps(r: Run, w: Which, data: Data)
    requires Inv(r) && r.outcome.None? && w != Progress
    ensures Inv(Record(r, Settle(w, data)))
    ensures Completed(Get(Act(r.d, Settle(w, data)), w)) == 0
  {
    var l := Get(r.d, w);
    assert !l.fired && l.list.Some? && !l.firing;
    InvParts(r);
    hide Loop, Finish, FireWith, Ok, RegsOk, FramesOk, OutcomeOk, Inv, Accepts, Completed;
    FireKeepsOnceEach(l, Regs(r, w), data);
    var l' := FireWith(l, data);
    assert l'.list.Some?;
    hide OnceEach;
    OutcomeBegins(r, w, data, l');
    PutFrames(r.d, w, l');
    InvAfterPut(r.(outcome := Some((w, data))), r, w, l', Regs(r, w));
  }

  /** Only the first settlement has an effect. */
  lemma LaterSettleIgnored(r: Run, w: Which, data: Data)
    requires Inv(r) && Quiet(r) && r.outcome.Some? && w != Progress
    ensures Act(r.d, Settle(w, data)) == r.d
  {
    hide Loop, Finish, FramesOk, RegsOk, Ordered, LogOk, EntriesFrom;
    InvParts(r);
    FireKeepsOnceEach(Get(r.d, w), Regs(r, w), data);
    hide OnceEach, Ok, FireWith;
  }

  /** An operation on the progress list keeps the account of the outcome. */
  lemma ProgressKeeps(r: Run, op: Op)
    requires Inv(r) && Quiet(r) && !op.Returned?
    requires r.d.progress.firing ==> Apply(r.d.progress, op).firing
    ensures Inv(r.(d := Put(r.d, Progress, Apply(r.d.progress, op))))
    ensures Quiet(r.(d := Put(r.d, Progress, Apply(r.d.progress, op))))
  {
    InvParts(r);
    hide Inv, Ok, OnceEach, RegsOk, FramesOk, Apply, Accepts, Loop, Finish;
    var l' := Apply(r.d.progress, op);
    KeepsOk(r.d.progress, op);
    PutFrames(r.d, Progress, l');
    ProgressOutcome(r, op);
    InvAfterPut(r, r, Progress, l', []);
  }

  lemma ProgressOutcome(r: Run, op: Op)
    requires OutcomeOk(r) && Quiet(r) && Ok(r.d.progress)
    ensures var r' := r.(d := Put(r.d, Progress, Apply(r.d.progress, op))); OutcomeOk(r') && Quiet(r')
  {
    hide Ok, Apply, Accepts, Completed;
    var l' := Apply(r.d.progress, op);
    if r.outcome.Some? {
      QuietRefuses(r);
      RefusalLasts(r.d.progress, op);
      OutcomeKept(r, Progress, l');
    } else {
      NoOutcomeKept(r, Progress, l');
    }
  }

  lemma QuietRefuses(r: Run)
    requires OutcomeOk(r) && Quiet(r) && r.outcome.Some?
    ensures !Accepts(r.d.progress)
  {
  }

  lemma NotifyKeeps(r: Run, data: Data)
    requires Inv(r) && Quiet(r)
    ensures Inv(Record(r, Notify(data))) && Quiet(Record(r, Notify(data)))
  {
    InvParts(r);
    hide Inv, Quiet, Ok, OnceEach, RegsOk, FramesOk, OutcomeOk, Loop, Finish;
    ProgressKeeps(r, FireOp(data));
  }

  /** Adding during or after the built-in functions does not disturb their account. */
  lemma AddKeepsCompleted(l: Callbacks.State, regs: seq<nat>, fns: seq<nat>)
    requires OnceEach(l, regs) && l.fired && l.list.Some? && Completed(l) == BUILT_IN
    ensures var l' := Callbacks.Add(l, fns);
      Completed(l') == BUILT_IN && l'.list.Some? && l'.fired && |l'.log| >= 1
      && l'.begun != [] && l'.begun[0].data == l.begun[0].data
  {
    AddKeepsOnceEach(l, regs, fns);
    if !l.firing {
      AddAtRestIsReplay(l, fns);
      ReplayIsMidway(l, fns);
      var b := ReplayFor(l, fns);
      assert b.log == l.log;
    }
  }

  lemma RegisterProgressKeeps(r: Run, fns: seq<nat>)
    requires Inv(r) && Quiet(r)
    ensures Inv(Record(r, Register(Progress, fns))) && Quiet(Record(r, Register(Progress, fns)))
  {
    InvParts(r);
    hide Inv, Quiet, Ok, OnceEach, RegsOk, FramesOk, OutcomeOk, Loop, Finish, PushAll;
    ProgressKeeps(r, AddOp(fns));
  }

  lemma MoreRegsOk(regs: seq<nat>, fns: seq<nat>)
    requires RegsOk(regs)
    ensures RegsOk(regs + fns)
  {
    assert (regs + fns)[..BUILT_IN] == regs[..BUILT_IN];
  }

  /** Registering keeps the account of the outcome. */
  lemma OutcomeRegisters(r: Run, w: Which, fns: seq<nat>)
    requires OutcomeOk(r) && Quiet(r) && w != Progress && OnceEach(Get(r.d, w), Regs(r, w))
    ensures var r' := r.(d := Put(r.d, w, Callbacks.Add(Get(r.d, w), fns))); OutcomeOk(r') && Quiet(r')
  {
    var l := Get(r.d, w);
    var l' := Callbacks.Add(l, fns);
    assert OnceEach(l, Regs(r, w));
    hide Callbacks.Add, Accepts, OnceEach, Ok;
    AddKeepsOnceEach(l, Regs(r, w), fns);
    if r.outcome.None? {
      AddKeepsList(l, fns);
      NoOutcomeKept(r, w, l');
    } else {
      if w == r.outcome.value.0 {
        AddKeepsCompleted(l, Regs(r, w), fns);
      } else {
        DisabledIsInert(l, fns);
      }
      OutcomeKept(r, w, l');
    }
  }

  lemma AddKeepsList(l: Callbacks.State, fns: seq<nat>)
    requires l.list.Some? && !l.fired && !l.firing && l.memory.None?
    ensures Callbacks.Add(l, fns).list.Some? && !Callbacks.Add(l, fns).firing
  {
  }

  lemma AddKeepsFiring(l: Callbacks.State, fns: seq<nat>)
    requires Ok(l) && l.firing
    ensures Callbacks.Add(l, fns).firing
  {
    hide Loop, Finish, PushAll;
  }

  lemma RegisterRecord(r: Run, w: Which, fns: seq<nat>)
    requires Inv(r) && w != Progress
    ensures var l := Get(r.d, w);
      Record(r, Register(w, fns)) ==
        WithRegs(r, w, if l.list.Some? then Regs(r, w) + fns else Regs(r, w)).(d := Put(r.d, w, Callbacks.Add(l, fns)))
  {
    hide Inv, Callbacks.Add;
  }

  function WithRegs(r: Run, w: Which, regs: seq<nat>): Run {
    if w == Done then r.(doneRegs := regs) else r.(failRegs := regs)
  }

  lemma RegisterOutcomeKeeps(r: Run, w: Which, fns: seq<nat>)
    requires Inv(r) && Quiet(r) && w != Progress
    ensures Inv(Record(r, Register(w, fns))) && Quiet(Record(r, Register(w, fns)))
  {
    InvParts(r);
    RegisterRecord(r, w, fns);
    hide Inv, Ok, OnceEach, RegsOk, FramesOk, Record, Callbacks.Add;
    var l := Get(r.d, w);
    var regs := if l.list.Some? then Regs(r, w) + fns else Regs(r, w);
    MoreRegsOk(Regs(r, w), fns);
    AddKeepsOnceEach(l, Regs(r, w), fns);
    OutcomeRegisters(r, w, fns);
    if l.firing {
      AddKeepsFiring(l, fns) by { OnceEachOk(l, Regs(r, w)); }
    }
    PutFrames(r.d, w, Callbacks.Add(l, fns));
    InvAfterPut(WithRegs(r, w, regs), r, w, Callbacks.Add(l, fns), regs);
  }

  lemma ReturnKeepsCompleted(l: Callbacks.State, regs: seq<nat>, isFalse: bool)
    requires OnceEach(l, regs) && l.fired && l.list.Some? && Completed(l) == BUILT_IN
    ensures var l' := Return(l, isFalse);
      Completed(l') == BUILT_IN && l'.list.Some? && l'.fired && l'.begun == l.begun && |l'.log| >= 1
  {
    ReturnKeepsOnceEach(l, regs, isFalse);
    if l.firing {
      var l1 := l.(firingIndex := l.firingIndex + 1);
      assert |l.list.value[l.firingIndex + 1..]| == |regs| - |l.log|;
      if l1.firingIndex < l1.firingLength {
        assert |Loop(l1).log| == |l.log| + 1;
      } else {
        assert Loop(l1).log == l.log && !Loop(l1).firing;
      }
    }
  }

  /** The invariant again, part by part, after one list has changed; `next` may have other
      registrations on that list, or an outcome. */
  lemma InvAfterPut(next: Run, r: Run, w: Which, l': Callbacks.State, regs: seq<nat>)
    requires Inv(r) && next.d == r.d && (w != Progress ==> RegsOk(regs) && Regs(next, w) == regs)
    requires w != Done ==> next.doneRegs == r.doneRegs
    requires w != Fail ==> next.failRegs == r.failRegs
    requires if w == Progress then Ok(l') && l'.flags == PROGRESS_LIST else OnceEach(l', regs)
    requires FramesOk(Put(r.d, w, l')) && OutcomeOk(next.(d := Put(r.d, w, l')))
    ensures Inv(next.(d := Put(r.d, w, l')))
  {
    hide Ok, OnceEach, RegsOk, FramesOk, OutcomeOk;
  }

  lemma ReturnedKeeps(r: Run, isFalse: bool)
    requires Inv(r) && Quiet(r)
    ensures Inv(Record(r, Event.Returned(isFalse))) && Quiet(Record(r, Event.Returned(isFalse)))
  {
    hide Loop, Finish, Return, Ok, OnceEach, RegsOk, FramesOk, OutcomeOk, Inv, Quiet, Record, Put, CursorOk;
    ReturnedRecord(r, isFalse);
    InvParts(r);
    if r.d.frames != [] {
      var w := r.d.frames[|r.d.frames| - 1];
      TopIsFiring(r.d);
      var l := Get(r.d, w);
      if w == Progress {
        ProgressReturns(r, isFalse);
      } else {
        ReturnKeepsOnceEach(l, Regs(r, w), isFalse);
        OutcomeReturns(r, w, isFalse);
      }
      PutFrames(r.d, w, Return(l, isFalse));
      InvAfterPut(r, r, w, Return(l, isFalse), Regs(r, w));
    }
  }

  lemma ReturnedRecord(r: Run, isFalse: bool)
    requires Inv(r)
    ensures r.d.frames == [] ==> Record(r, Event.Returned(isFalse)) == r
    ensures r.d.frames != [] ==>
      var w := r.d.frames[|r.d.frames| - 1]; var l := Get(r.d, w);
      && (l.firing ==> l.begun != [] && CursorOk(l) && l.firingIndex >= -1)
      && Record(r, Event.Returned(isFalse)) == r.(d := Put(r.d, w, Return(l, isFalse)))
  {
    InvParts(r);
    hide Inv, Ok;
  }

  lemma OutcomeReturns(r: Run, w: Which, isFalse: bool)
    requires OutcomeOk(r) && Quiet(r) && w != Progress && Get(r.d, w).firing
    requires OnceEach(Get(r.d, w), Regs(r, w))
    ensures var r' := r.(d := Put(r.d, w, Return(Get(r.d, w), isFalse))); OutcomeOk(r') && Quiet(r')
  {
    assert r.outcome.Some? && r.outcome.value.0 == w;
    ReturnKeepsCompleted(Get(r.d, w), Regs(r, w), isFalse);
    OutcomeKept(r, w, Return(Get(r.d, w), isFalse));
  }

  lemma ProgressReturns(r: Run, isFalse: bool)
    requires OutcomeOk(r) && Quiet(r) && Ok(r.d.progress)
    ensures var l' := Return(r.d.progress, isFalse);
      && Ok(l') && l'.flags == r.d.progress.flags
      && OutcomeOk(r.(d := Put(r.d, Progress, l'))) && Quiet(r.(d := Put(r.d, Progress, l')))
  {
    KeepsOk(r.d.progress, Op.Returned(isFalse));
    if r.outcome.Some? {
      RefusalLasts(r.d.progress, Op.Returned(isFalse));
      OutcomeKept(r, Progress, Return(r.d.progress, isFalse));
    } else {
      NoOutcomeKept(r, Progress, Return(r.d.progress, isFalse));
    }
  }

  // ---- Runs ----

  lemma QuietTick(r: Run)
    requires Inv(r) && Quiet(r)
    ensures TickRun(r) == r
  {
    RunningIs(r);
  }

  lemma TickTowardsQuiet(r: Run)
    requires Inv(r)
    ensures Inv(TickRun(r))
    ensures r.outcome.Some? ==>
      var w := r.outcome.value.0;
      Completed(Get(TickRun(r).d, w)) == (if Completed(Get(r.d, w)) < BUILT_IN then Completed(Get(r.d, w)) + 1 else BUILT_IN)
  {
    if Quiet(r) {
      QuietTick(r);
    } else {
      TickKeeps(r);
    }
  }

  lemma RecordKeeps(r: Run, e: Event)
    requires Inv(r) && Quiet(r) && WellFormedEvent(e)
    ensures Inv(Record(r, e))
  {
    match e
    case Settle(w, data) =>
      if r.outcome.None? {
        FirstSettleKeeps(r, w, data);
      } else {
        LaterSettleIgnored(r, w, data);
      }
    case Notify(data) => NotifyKeeps(r, data);
    case Register(w, fns) =>
      if w == Progress {
        RegisterProgressKeeps(r, fns);
      } else {
        RegisterOutcomeKeeps(r, w, fns);
      }
    case Returned(isFalse) => ReturnedKeeps(r, isFalse);
  }

  /** An event of the user, and then Deferred's own functions until control is back with the
      user. */
  ghost function Step(r: Run, e: Event): (r': Run)
    requires Inv(r) && Quiet(r) && WellFormedEvent(e)
    ensures Inv(r') && Quiet(r') && r'.outcome == Record(r, e).outcome
    ensures r'.doneRegs == Record(r, e).doneRegs && r'.failRegs == Record(r, e).failRegs
  {
    var r0 := Record(r, e);
    RecordKeeps(r, e);
    TickTowardsQuiet(r0);
    var r1 := TickRun(r0);
    TickTowardsQuiet(r1);
    var r2 := TickRun(r1);
    TickTowardsQuiet(r2);
    TickRun(r2)
  }

  ghost predicate WellFormedEvents(events: seq<Event>) {
    forall i | 0 <= i < |events| :: WellFormedEvent(events[i])
  }

  ghost function RunAll(events: seq<Event>): (r: Run)
    requires WellFormedEvents(events)
    ensures Inv(r) && Quiet(r)
    decreases |events|
  {
    if events == [] then
      InitInv();
      Run(Init(), BuiltIns(), BuiltIns(), None)
    else Step(RunAll(events[..|events| - 1]), events[|events| - 1])
  }

  /** The first resolve or reject of a run. */
  function FirstSettlement(events: seq<Event>): Option<(Which, Data)> {
    if events == [] then None
    else
      var before, last := FirstSettlement(events[..|events| - 1]), events[|events| - 1];
      if before.Some? then before
      else if last.Settle? then Some((last.w, last.data))
      else None
  }

  function StateOf(settlement: Option<(Which, Data)>): Settlement {
    match settlement
    case None => Unsettled
    case Some((w, _)) => StateAfter(w)
  }

  /** All functions registered on one list, in the order of the calls. */
  function Registered(events: seq<Event>, w: Which): seq<nat> {
    if events == [] then []
    else
      var before, last := Registered(events[..|events| - 1], w), events[|events| - 1];
      if last.Register? && last.w == w then before + last.fns else before
  }

  lemma StepOutcome(r: Run, e: Event)
    requires Inv(r) && Quiet(r) && WellFormedEvent(e)
    ensures Step(r, e).outcome ==
      if r.outcome.Some? then r.outcome else if e.Settle? then Some((e.w, e.data)) else None
  {
  }

  lemma {:induction false} OutcomeIsFirstSettlement(events: seq<Event>)
    requires WellFormedEvents(events)
    ensures RunAll(events).outcome == FirstSettlement(events)
    decreases |events|
  {
    if events != [] {
      var init := events[..|events| - 1];
      OutcomeIsFirstSettlement(init);
      StepOutcome(RunAll(init), events[|events| - 1]);
    }
  }

  lemma StepRegs(r: Run, e: Event, w: Which)
    requires Inv(r) && Quiet(r) && WellFormedEvent(e) && w != Progress
    requires r.outcome.None? || r.outcome.value.0 == w
    ensures Regs(Step(r, e), w) == if e.Register? && e.w == w then Regs(r, w) + e.fns else Regs(r, w)
  {
    StillOn(r, w);
    hide Step, Inv, Quiet, Act;
  }

  lemma StillOn(r: Run, w: Which)
    requires Inv(r) && w != Progress && (r.outcome.None? || r.outcome.value.0 == w)
    ensures Get(r.d, w).list.Some?
  {
  }

  lemma RunUnfolds(events: seq<Event>)
    requires WellFormedEvents(events)
    ensures events == [] ==> Regs(RunAll(events), Done) == BuiltIns() && Regs(RunAll(events), Fail) == BuiltIns()
    ensures events != [] ==>
      && WellFormedEvents(events[..|events| - 1]) && WellFormedEvent(events[|events| - 1])
      && RunAll(events) == Step(RunAll(events[..|events| - 1]), events[|events| - 1])
  {
    hide Step, Inv, Quiet, WellFormedEvent, Init;
  }

  /** `w` is not the outcome list that was switched off. */
  predicate NotOff(events: seq<Event>, w: Which) {
    FirstSettlement(events).None? || FirstSettlement(events).value.0 == w
  }

  lemma NotOffBefore(events: seq<Event>, w: Which)
    requires events != [] && NotOff(events, w)
    ensures NotOff(events[..|events| - 1], w)
  {
  }

  lemma RegisteredUnfolds(events: seq<Event>, w: Which)
    ensures events == [] ==> BuiltIns() + Registered(events, w) == BuiltIns()
    ensures events != [] ==>
      var init, last := events[..|events| - 1], events[|events| - 1];
      BuiltIns() + Registered(events, w) ==
        if last.Register? && last.w == w then BuiltIns() + Registered(init, w) + last.fns else BuiltIns() + Registered(init, w)
  {
  }

  /** A list that was not switched off has everything ever registered. */
  lemma {:induction false} RegsAreRegistered(events: seq<Event>, w: Which)
    requires WellFormedEvents(events) && w != Progress && NotOff(events, w)
    ensures Regs(RunAll(events), w) == BuiltIns() + Registered(events, w)
    decreases |events|
  {
    hide *;
    RunUnfolds(events);
    RegisteredUnfolds(events, w);
    if events != [] {
      var init, last := events[..|events| - 1], events[|events| - 1];
      NotOffBefore(events, w);
      RegsAreRegistered(init, w);
      LastStepRegs(init, last, w);
    } else {
      EitherOutcome(w);
    }
  }

  lemma EitherOutcome(w: Which)
    requires w != Progress
    ensures w == Done || w == Fail
  {
  }

  lemma LastStepRegs(init: seq<Event>, last: Event, w: Which)
    requires WellFormedEvents(init) && WellFormedEvent(last) && w != Progress && NotOff(init, w)
    ensures var r := RunAll(init);
      Regs(Step(r, last), w) == if last.Register? && last.w == w then Regs(r, w) + last.fns else Regs(r, w)
  {
    OutcomeIsFirstSettlement(init);
    StepRegs(RunAll(init), last, w);
  }

  /** In every run the state is that of the first settlement; once left, "pending" is never
      seen again and nothing changes it. */
  lemma SettlesOnce(events: seq<Event>, upto: nat)
    requires WellFormedEvents(events) && upto <= |events|
    ensures RunAll(events).d.state == StateOf(FirstSettlement(events))
    ensures RunAll(events[..upto]).d.state != Unsettled ==> RunAll(events).d.state == RunAll(events[..upto]).d.state
  {
    hide *;
    StateIsFirstSettlement(events);
    WellFormedPrefix(events, upto);
    StateIsFirstSettlement(events[..upto]);
    StateStays(events, upto);
  }

  lemma WellFormedPrefix(events: seq<Event>, upto: nat)
    requires WellFormedEvents(events) && upto <= |events|
    ensures WellFormedEvents(events[..upto])
  {
  }

  lemma StateStays(events: seq<Event>, upto: nat)
    requires upto <= |events|
    ensures StateOf(FirstSettlement(events[..upto])) != Unsettled ==>
            StateOf(FirstSettlement(events)) == StateOf(FirstSettlement(events[..upto]))
  {
    FirstStaysFirst(events, upto);
  }

  lemma StateIsFirstSettlement(events: seq<Event>)
    requires WellFormedEvents(events)
    ensures RunAll(events).d.state == StateOf(FirstSettlement(events))
    ensures var first, state := FirstSettlement(events), RunAll(events).d.state;
      && (state == Unsettled <==> first.None?)
      && (state == Resolved <==> first.Some? && first.value.0 == Done)
      && (state == Rejected <==> first.Some? && first.value.0 == Fail)
  {
    OutcomeIsFirstSettlement(events);
    assert OutcomeOk(RunAll(events));
  }

  lemma {:induction false} FirstStaysFirst(events: seq<Event>, upto: nat)
    requires upto <= |events|
    ensures FirstSettlement(events[..upto]).Some? ==> FirstSettlement(events) == FirstSettlement(events[..upto])
    decreases |events|
  {
    if upto == |events| {
      assert events[..upto] == events;
    } else {
      assert events[..|events| - 1][..upto] == events[..upto];
      FirstStaysFirst(events[..|events| - 1], upto);
    }
  }

  /** The callbacks of the outcome run in the order of registration, each once and with the
      data of the first settlement; at rest none is owed.  Those of the other outcome never
      run, and before the first settlement none does. */
  lemma EachCalledOnce(events: seq<Event>, w: Which)
    requires WellFormedEvents(events) && w != Progress
    ensures var l, regs := Get(RunAll(events).d, w), BuiltIns() + Registered(events, w);
      match FirstSettlement(events)
      case None => l.log == []
      case Some((v, data)) =>
        if v != w then l.log == []
        else
          && |l.log| <= |regs|
          && (forall i | 0 <= i < |l.log| :: l.log[i].entry == Entry(regs[i], i) && l.log[i].data == data)
          && (RunAll(events).d.frames == [] ==> |l.log| == |regs|)
  {
    hide *;
    OutcomeIsFirstSettlement(events);
    EachCalledInRun(RunAll(events), w);
    if FirstSettlement(events).Some? && FirstSettlement(events).value.0 == w {
      OutcomeIsOn(events, w);
      RegsAreRegistered(events, w);
    }
  }

  lemma OutcomeIsOn(events: seq<Event>, w: Which)
    requires FirstSettlement(events).Some? && FirstSettlement(events).value.0 == w
    ensures NotOff(events, w)
  {
  }

  lemma EachCalledInRun(r: Run, w: Which)
    requires Inv(r) && w != Progress
    ensures var l, regs := Get(r.d, w), Regs(r, w);
      match r.outcome
      case None => l.log == []
      case Some((v, data)) =>
        if v != w then l.log == []
        else
          && |l.log| <= |regs|
          && (forall i | 0 <= i < |l.log| :: l.log[i].entry == Entry(regs[i], i) && l.log[i].data == data)
          && (r.d.frames == [] ==> |l.log| == |regs|)
  {
    hide Ordered, RegsOk, Completed, Accepts;
    var l := Get(r.d, w);
    assert OnceEach(l, Regs(r, w));
    OnceEachData(l, Regs(r, w));
    assert r.d.frames == [] ==> !l.firing by { hide OnceEach, Ok, OutcomeOk; }
    hide Ok, FramesOk;
  }

  /** Even between Deferred's own functions: whenever a user callback of an outcome has been
      entered, the state says so already and the other list is off. */
  lemma CallbacksSeeTheState(r: Run, w: Which)
    requires Inv(r) && w != Progress && |Get(r.d, w).log| > BUILT_IN
    ensures r.d.state == StateAfter(w) && Get(r.d, Other(w)).list.None? && !Accepts(r.d.progress)
  {
  }

  /** A quiet record is already the whole step. */
  lemma QuietStep(r: Run, e: Event)
    requires Inv(r) && Quiet(r) && WellFormedEvent(e) && Quiet(Record(r, e))
    ensures Step(r, e) == Record(r, e)
  {
    RecordKeeps(r, e);
    QuietTick(Record(r, e));
  }

  lemma SettledRecordIsQuiet(r: Run, e: Event)
    requires Inv(r) && Quiet(r) && WellFormedEvent(e) && r.outcome.Some?
    ensures Quiet(Record(r, e))
  {
    match e
    case Settle(w, data) => LaterSettleIgnored(r, w, data);
    case Notify(data) => NotifyKeeps(r, data);
    case Register(w, fns) =>
      if w == Progress {
        RegisterProgressKeeps(r, fns);
      } else {
        RegisterOutcomeKeeps(r, w, fns);
      }
    case Returned(isFalse) => ReturnedKeeps(r, isFalse);
  }

  lemma SettledRefuses(r: Run)
    requires Inv(r) && Quiet(r) && r.outcome.Some?
    ensures Ok(r.d.progress) && !Accepts(r.d.progress)
  {
  }

  /** The operation an event performs on the progress list, if any. */
  function OnProgress(d: Machine, e: Event): Option<Op> {
    match e
    case Settle(_, _) => None
    case Notify(data) => Some(FireOp(data))
    case Register(w, fns) => if w == Progress then Some(AddOp(fns)) else None
    case Returned(isFalse) =>
      if d.frames != [] && d.frames[|d.frames| - 1] == Progress then Some(Op.Returned(isFalse)) else None
  }

  lemma ProgressUnderEvent(r: Run, e: Event)
    requires Inv(r) && WellFormedEvent(e)
    ensures Record(r, e).d.progress ==
      match OnProgress(r.d, e) case None => r.d.progress case Some(op) => Apply(r.d.progress, op)
  {
    hide Inv, Loop, Finish, Ok;
  }

  lemma RefusingListUnderEvent(r: Run, e: Event)
    requires Inv(r) && Quiet(r) && WellFormedEvent(e) && r.outcome.Some?
    ensures Delivered(Record(r, e).d.progress.begun) == Delivered(r.d.progress.begun)
  {
    hide *;
    SettledRefuses(r);
    ProgressUnderEvent(r, e);
    match OnProgress(r.d, e)
    case None =>
    case Some(op) => RefusalLasts(r.d.progress, op);
  }

  lemma SettledStepNotifiesNothing(r: Run, e: Event)
    requires Inv(r) && Quiet(r) && WellFormedEvent(e) && r.outcome.Some?
    ensures Delivered(Step(r, e).d.progress.begun) == Delivered(r.d.progress.begun)
  {
    SettledRecordIsQuiet(r, e);
    QuietStep(r, e);
    RefusingListUnderEvent(r, e);
  }

  /** After settlement no `notify` is delivered any more: only late additions hear the last
      one again. */
  lemma {:induction false} NoNotificationAfterSettlement(events: seq<Event>, upto: nat)
    requires WellFormedEvents(events) && upto <= |events|
    requires FirstSettlement(events[..upto]).Some?
    ensures Delivered(RunAll(events).d.progress.begun) == Delivered(RunAll(events[..upto]).d.progress.begun)
    decreases |events|
  {
    if upto == |events| {
      assert events[..upto] == events;
    } else {
      var init := events[..|events| - 1];
      assert init[..upto] == events[..upto];
      NoNotificationAfterSettlement(init, upto);
      FirstStaysFirst(init, upto);
      OutcomeIsFirstSettlement(init);
      SettledStepNotifiesNothing(RunAll(init), events[|events| - 1]);
    }
  }
}