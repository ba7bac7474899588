/** `jQuery.Callbacks` as a machine: every operation, up to the point where control passes
    to a user callback or back to the caller, is one step on the list's closure state. */
module Callbacks {
  import opened Optional
  import opened Lists

  /** A registered function.  `id` numbers registrations, so that one function added twice
      gives two entries. */
  datatype Entry = Entry(fn: nat, id: nat)

  /** The context and arguments of a fire, by number. */
  type Data = nat

  datatype Flags = Flags(once: bool, memory: bool, unique: bool, stopOnFalse: bool)

  /** A callback invocation: which entry, with which data, in which pass. */
  datatype Call = Call(entry: Entry, data: Data, pass: nat)

  /** A pass begun, and whether it replays the memory for late additions. */
  datatype Pass = Pass(data: Data, replay: bool)

  /** The variables of the closure, then the history: passes begun and calls made.
      `list`, `stack` and `memory` are None where the source has a falsy value. */
  datatype State = State(
    flags: Flags,
    list: Option<seq<Entry>>,
    stack: Option<seq<Data>>,
    memory: Option<Data>,
    fired: bool,
    firing: bool,
    firingIndex: int,
    firingLength: int,
    firingStart: nat,
    nextId: nat,
    begun: seq<Pass>,
    log: seq<Call>)

  function Init(flags: Flags): (s: State)
    ensures Ok(s)
  {
    State(flags, Some([]), if flags.once then None else Some([]), None, false, false, 0, 0, 0, 0, [], [])
  }

  /** The data of the pass in progress. */
  function Current(s: State): Data
    requires s.begun != []
  {
    s.begun[|s.begun| - 1].data
  }

  // ---- The operations ----

  /** `fire`, up to its loop. */
  function BeginPass(s: State, data: Data, replay: bool): State
    requires s.list.Some?
  {
    s.(memory := if s.flags.memory then Some(data) else None, fired := true, firing := true,
       firingIndex := s.firingStart, firingStart := 0, firingLength := |s.list.value|,
       begun := s.begun + [Pass(data, replay)])
  }

  function QueueLength(s: State): nat {
    if s.stack.Some? then |s.stack.value| else 0
  }

  /** While firing, the length is that of the list, and the cursor is on an entry or just
      before the first. */
  predicate CursorOk(s: State) {
    s.list.Some? ==> s.firingLength == |s.list.value| && -1 <= s.firingIndex
  }

  /** The loop test of `fire`: call the entry at the cursor, or finish the pass. */
  function Loop(s: State): (r: State)
    requires s.begun != [] && CursorOk(s) && s.firingIndex >= 0
    ensures r.flags == s.flags && r.nextId == s.nextId
    decreases QueueLength(s), 1
  {
    if s.list.Some? && s.firingIndex < s.firingLength then
      s.(log := s.log + [Call(s.list.value[s.firingIndex], Current(s), |s.begun| - 1)])
    else Finish(s)
  }

  /** What `fire` does after its loop. */
  function Finish(s: State): (r: State)
    requires s.begun != []
    ensures r.flags == s.flags && r.nextId == s.nextId
    decreases QueueLength(s), 0
  {
    var idle := s.(firing := false);
    if s.list.None? then idle
    else if s.stack.Some? then
      if s.stack.value != [] then
        Loop(BeginPass(idle.(stack := Some(s.stack.value[1..])), s.stack.value[0], false))
      else idle
    else if s.memory.Some? then idle.(list := Some([]))
    else Disable(idle)
  }

  /** The callback at the cursor returns. */
  function Return(s: State, isFalse: bool): State
    requires s.firing ==> s.begun != [] && CursorOk(s) && s.firingIndex >= -1
  {
    if !s.firing then s
    else if isFalse && s.flags.stopOnFalse then Finish(s.(memory := None))
    else Loop(s.(firingIndex := s.firingIndex + 1))
  }

  predicate Has(list: seq<Entry>, fn: nat) {
    exists i :: 0 <= i < |list| && list[i].fn == fn
  }

  /** Push each function, skipping one already present on a `unique` list. */
  function PushAll(list: seq<Entry>, nextId: nat, fns: seq<nat>, unique: bool): (r: (seq<Entry>, nat))
    ensures list <= r.0 && nextId <= r.1
    decreases |fns|
  {
    if fns == [] then (list, nextId)
    else if unique && Has(list, fns[0]) then PushAll(list, nextId, fns[1..], unique)
    else PushAll(list + [Entry(fns[0], nextId)], nextId + 1, fns[1..], unique)
  }

  function Add(s: State, fns: seq<nat>): State {
    if s.list.None? then s
    else
      var (list, nextId) := PushAll(s.list.value, s.nextId, fns, s.flags.unique);
      var s' := s.(list := Some(list), nextId := nextId);
      if s.firing then s'.(firingLength := |list|)
      else if s.memory.Some? then
        Loop(BeginPass(s'.(firingStart := |s.list.value|), s.memory.value, true))
      else s'
  }

  function OtherThan(fn: nat): Entry -> bool {
    (e: Entry) => e.fn != fn
  }

  /** `remove` of one function: all its entries go, and while firing the cursor and the
      length move by the number of entries gone on their side. */
  function Remove(s: State, fn: nat): State {
    if s.list.None? then s
    else
      var list := s.list.value;
      var kept := Filter(list, OtherThan(fn));
      var upto := if s.firingIndex + 1 < 0 then 0 else if s.firingIndex + 1 > |list| then |list| else s.firingIndex + 1;
      if s.firing then
        s.(list := Some(kept), firingLength := s.firingLength - (|list| - |kept|),
           firingIndex := s.firingIndex - (upto - |Filter(list[..upto], OtherThan(fn))|))
      else s.(list := Some(kept))
  }

  function Disable(s: State): State {
    s.(list := None, stack := None, memory := None)
  }

  function Lock(s: State): State {
    var s' := s.(stack := None);
    if s.memory.None? then Disable(s') else s'
  }

  /** Whether `fireWith` lets a fire through. */
  predicate Accepts(s: State) {
    s.list.Some? && (!s.fired || s.stack.Some?)
  }

  function FireWith(s: State, data: Data): State
    requires s.firing ==> s.fired
  {
    if !Accepts(s) then s
    else if s.firing then s.(stack := Some(s.stack.value + [data]))
    else Loop(BeginPass(s, data, false))
  }

  // ---- Runs ----

  /** What the program, or a callback in the middle of a pass, may do.  `Returned` ends the
      callback at the cursor. */
  datatype Op =
    | AddOp(fns: seq<nat>)
    | RemoveOp(fn: nat)
    | FireOp(data: Data)
    | LockOp
    | DisableOp
    | Returned(isFalse: bool)

  ghost function Apply(s: State, op: Op): State
    requires Ok(s)
  {
    match op
    case AddOp(fns) => Add(s, fns)
    case RemoveOp(fn) => Remove(s, fn)
    case FireOp(data) => FireWith(s, data)
    case LockOp => Lock(s)
    case DisableOp => Disable(s)
    case Returned(isFalse) => Return(s, isFalse)
  }

  ghost function Run(s: State, ops: seq<Op>): (r: State)
    requires Ok(s)
    ensures Ok(r) && r.flags == s.flags
    decreases |ops|
  {
    if ops == [] then s
    else
      var before := Run(s, ops[..|ops| - 1]);
      KeepsOk(before, ops[|ops| - 1]);
      Apply(before, ops[|ops| - 1])
  }

  // ---- What every step keeps ----

  ghost predicate Ordered(list: seq<Entry>, below: nat) {
    && (forall i, j | 0 <= i < j < |list| :: list[i].id < list[j].id)
    && (forall i | 0 <= i < |list| :: list[i].id < below)
  }

  ghost predicate Ok(s: State) {
    && (s.list.Some? ==> Ordered(s.list.value, s.nextId))
    && (s.firing ==> s.fired && s.firingIndex >= -1 && CursorOk(s))
    && (s.firing && s.list.Some? ==> s.firingIndex < |s.list.value|)
    && (s.fired <==> s.begun != [])
    && s.firingStart == 0
    && (!s.firing && s.stack.Some? ==> s.stack.value == [])
    && (s.memory.Some? ==> s.begun != [] && s.memory.value == Current(s))
    && (s.list.None? ==> s.stack.None? && s.memory.None?)
    && (s.flags.once ==> s.stack.None?)
    && (!s.fired && s.stack.None? && !s.flags.once ==> s.list.None?)
    && LogOk(s)
  }

  /** Calls carry the data of their pass, and passes never interleave. */
  ghost predicate LogOk(s: State) {
    && (forall i | 0 <= i < |s.log| ::
          s.log[i].pass < |s.begun| && s.log[i].data == s.begun[s.log[i].pass].data)
    && (forall i, j | 0 <= i < j < |s.log| :: s.log[i].pass <= s.log[j].pass)
  }

  /** `Ok` in the middle of `fire`, at its loop test. */
  ghost predicate Midway(s: State) {
    && (s.list.Some? ==> Ordered(s.list.value, s.nextId) && s.firingIndex <= |s.list.value|)
    && s.firing && s.fired && s.begun != [] && CursorOk(s) && s.firingStart == 0
    && (s.list.None? ==> s.stack.None? && s.memory.None?)
    && (s.memory.Some? ==> s.memory.value == Current(s))
    && (s.flags.once ==> s.stack.None?)
    && LogOk(s)
  }

  lemma {:induction false} LoopOk(s: State)
    requires Midway(s) && s.firingIndex >= 0
    ensures Ok(Loop(s))
    decreases QueueLength(s), 1
  {
    if !(s.list.Some? && s.firingIndex < s.firingLength) {
      FinishOk(s);
    }
  }

  lemma {:induction false} FinishOk(s: State)
    requires Midway(s)
    ensures Ok(Finish(s))
    decreases QueueLength(s), 0
  {
    if s.list.Some? && s.stack.Some? && s.stack.value != [] {
      LoopOk(BeginPass(s.(firing := false, stack := Some(s.stack.value[1..])), s.stack.value[0], false));
    }
  }

  lemma {:induction false} PushAllOrdered(list: seq<Entry>, nextId: nat, fns: seq<nat>, unique: bool)
    requires Ordered(list, nextId)
    ensures var (list', nextId') := PushAll(list, nextId, fns, unique); Ordered(list', nextId')
    decreases |fns|
  {
    if fns != [] {
      if unique && Has(list, fns[0]) {
        PushAllOrdered(list, nextId, fns[1..], unique);
      } else {
        PushAllOrdered(list + [Entry(fns[0], nextId)], nextId + 1, fns[1..], unique);
      }
    }
  }

  lemma {:induction false} FilterOrdered(list: seq<Entry>, below: nat, keep: Entry -> bool)
    requires Ordered(list, below)
    ensures Ordered(Filter(list, keep), below) && |Filter(list, keep)| <= |list|
  {
    if list != [] {
      FilterOrdered(list[1..], below, keep);
      var rest := Filter(list[1..], keep);
      forall j | 0 <= j < |rest| ensures list[0].id < rest[j].id {
        FilterMembers(list[1..], keep, rest[j]);
      }
    }
  }

  lemma RemoveOk(s: State, fn: nat)
    requires Ok(s)
    ensures Ok(Remove(s, fn))
  {
    if s.list.Some? {
      var list := s.list.value;
      FilterOrdered(list, s.nextId, OtherThan(fn));
      if s.firing {
        var upto := s.firingIndex + 1;
        assert list == list[..upto] + list[upto..];
        FilterAppend(list[..upto], list[upto..], OtherThan(fn));
      }
    }
  }

  lemma AddOk(s: State, fns: seq<nat>)
    requires Ok(s)
    ensures Ok(Add(s, fns)) && Add(s, fns).flags == s.flags
  {
    hide Loop, Finish;
    if s.list.Some? {
      PushAllOrdered(s.list.value, s.nextId, fns, s.flags.unique);
      var (list, nextId) := PushAll(s.list.value, s.nextId, fns, s.flags.unique);
      var s' := s.(list := Some(list), nextId := nextId, firingStart := |s.list.value|);
      if !s.firing && s.memory.Some? {
        LoopOk(BeginPass(s', s.memory.value, true));
      }
    }
  }

  lemma ReturnOk(s: State, isFalse: bool)
    requires Ok(s)
    ensures Ok(Return(s, isFalse)) && Return(s, isFalse).flags == s.flags
  {
    hide Loop, Finish;
    if s.firing {
      if isFalse && s.flags.stopOnFalse {
        FinishOk(s.(memory := None));
      } else {
        LoopOk(s.(firingIndex := s.firingIndex + 1));
      }
    }
  }

  lemma FireOk(s: State, data: Data)
    requires Ok(s)
    ensures Ok(FireWith(s, data)) && FireWith(s, data).flags == s.flags
  {
    hide Loop, Finish;
    if Accepts(s) && !s.firing {
      LoopOk(BeginPass(s, data, false));
    }
  }

  lemma OffOk(s: State)
    requires Ok(s)
    ensures Ok(Disable(s)) && Ok(Lock(s)) && Disable(s).flags == Lock(s).flags == s.flags
  {
  }

  lemma KeepsOk(s: State, op: Op)
    requires Ok(s)
    ensures Ok(Apply(s, op)) && Apply(s, op).flags == s.flags
  {
    hide Ok, Add, Return, FireWith, Disable, Lock;
    match op
    case AddOp(fns) => AddOk(s, fns);
    case RemoveOp(fn) => RemoveOk(s, fn);
    case FireOp(data) => FireOk(s, data);
    case LockOp => OffOk(s);
    case DisableOp => OffOk(s);
    case Returned(isFalse) => ReturnOk(s, isFalse);
  }
}
