/** `debounce` and `throttle`: one function called at most so often, by a closure with two timers
    on a clock that does not run back. */
module Debounce {
  import opened Optional

  datatype Kind = Delayed | MaxDelayed

  datatype Timer = Timer(kind: Kind, due: int)

  /** An invocation of the function, with the arguments of the call of that number. */
  datatype Invocation = Invocation(time: int, args: Option<nat>)

  /** `maxWait` is None where the source has false. */
  datatype Options = Options(wait: nat, leading: bool, trailing: bool, maxWait: Option<nat>)

  function Max(a: int, b: int): int {
    if a >= b then a else b
  }

  /** The options after `debounce` has read them. */
  function DebounceOptions(wait: int, leading: bool, trailing: bool, maxWait: Option<int>): Options {
    var w := Max(0, wait);
    Options(w, leading, trailing, if maxWait.None? then None else Some(Max(w, maxWait.value)))
  }

  function ThrottleOptions(wait: int, leading: bool, trailing: bool): Options {
    DebounceOptions(wait, leading, trailing, Some(wait))
  }

  predicate Proper(o: Options) {
    o.maxWait.Some? ==> o.maxWait.value >= o.wait
  }

  predicate Throttling(o: Options) {
    o.maxWait == Some(o.wait)
  }

  lemma ThrottleThrottles(wait: int, leading: bool, trailing: bool)
    ensures Throttling(ThrottleOptions(wait, leading, trailing))
  {
  }

  /** The variables of the closure; the timers pending on the page, by id; then the history:
      when calls were made, and the invocations. */
  datatype State = State(args: Option<nat>, stamp: int, lastCalled: int, trailingCall: bool,
                         timeoutId: Option<nat>, maxTimeoutId: Option<nat>,
                         timers: map<nat, Timer>, nextId: nat, clock: int,
                         calls: seq<int>, log: seq<Invocation>)

  function Initial(clock: nat): State {
    State(None, 0, 0, false, None, None, map[], 1, clock, [], [])
  }

  // ---- The steps of the closure ----

  /** `timeoutId = setTimeout( delayed, … )` */
  function SetTimeout(s: State, due: int): State {
    s.(timeoutId := Some(s.nextId), timers := s.timers[s.nextId := Timer(Delayed, due)], nextId := s.nextId + 1)
  }

  /** `maxTimeoutId = setTimeout( maxDelayed, … )` */
  function SetMaxTimeout(s: State, due: int): State {
    s.(maxTimeoutId := Some(s.nextId), timers := s.timers[s.nextId := Timer(MaxDelayed, due)], nextId := s.nextId + 1)
  }

  /** `timeoutId = clearTimeout( timeoutId )` */
  function ClearTimeout(s: State): State {
    if s.timeoutId.None? then s else s.(timeoutId := None, timers := s.timers - {s.timeoutId.value})
  }

  /** `maxTimeoutId = clearTimeout( maxTimeoutId )` */
  function ClearMaxTimeout(s: State): State {
    if s.maxTimeoutId.None? then s else s.(maxTimeoutId := None, timers := s.timers - {s.maxTimeoutId.value})
  }

  /** `func.apply( thisArg, args )` */
  function Apply(s: State, now: int): State {
    s.(log := s.log + [Invocation(now, s.args)])
  }

  function Forget(s: State): State {
    if s.timeoutId.None? && s.maxTimeoutId.None? then s.(args := None) else s
  }

  /** The part of a call that looks at `maxWait`: does it invoke? */
  function CallMax(o: Options, s: State, now: int): (State, bool)
    requires o.maxWait.Some?
  {
    var s1 := if s.maxTimeoutId.None? && !o.leading then s.(lastCalled := now) else s;
    var remaining := o.maxWait.value - (now - s1.lastCalled);
    if remaining <= 0 then (Apply(ClearMaxTimeout(s1).(lastCalled := now), now), true)
    else if s1.maxTimeoutId.None? then (SetMaxTimeout(s1, now + remaining), false)
    else (s1, false)
  }

  /** The part of a call that looks at the short timer. */
  function CallWait(o: Options, s: State, now: int, isCalled: bool): State {
    if isCalled && s.timeoutId.Some? then ClearTimeout(s)
    else if s.timeoutId.None? && o.maxWait != Some(o.wait) then SetTimeout(s, now + o.wait)
    else s
  }

  /** A call notes its time and arguments first. */
  function Noted(o: Options, s: State, now: int): State {
    s.(args := Some(|s.calls|), stamp := now, clock := now, calls := s.calls + [now],
       trailingCall := o.trailing && (s.timeoutId.Some? || !o.leading))
  }

  /** A call of the wrapper. */
  function OnCall(o: Options, s: State, now: int): State {
    var s0 := Noted(o, s, now);
    var leadingCall := o.maxWait.None? && o.leading && s.timeoutId.None?;
    var (s1, isCalled) := if o.maxWait.Some? then CallMax(o, s0, now) else (s0, false);
    var s2 := CallWait(o, s1, now, isCalled);
    var s3 := if leadingCall then Apply(s2, now) else s2;
    if isCalled || leadingCall then Forget(s3) else s3
  }

  /** `delayed`: the timer `timeoutId` has fired. */
  function OnDelayed(o: Options, s: State, now: int): State {
    var remaining := o.wait - (now - s.stamp);
    if remaining <= 0 then
      var s1 := ClearMaxTimeout(s).(timeoutId := None, trailingCall := false);
      if s.trailingCall then Forget(Apply(s1.(lastCalled := now), now)) else s1
    else SetTimeout(s, now + remaining)
  }

  /** `maxDelayed`: the timer `maxTimeoutId` has fired. */
  function OnMaxDelayed(o: Options, s: State, now: int): State {
    var s1 := ClearTimeout(s).(maxTimeoutId := None, trailingCall := false);
    if o.trailing || o.maxWait != Some(o.wait) then Forget(Apply(s1.(lastCalled := now), now)) else s1
  }

  // ---- Runs ----

  datatype Event = Call(time: int) | Fire(id: nat, time: int)

  /** Time does not run back, and timers do not fire early.  Prompt timers are never late: nothing
      else happens once one is overdue. */
  predicate Enabled(s: State, e: Event, prompt: bool) {
    && s.clock <= e.time
    && (e.Fire? ==> e.id in s.timers && s.timers[e.id].due <= e.time)
    && (prompt ==> forall id | id in s.timers :: e.time <= s.timers[id].due)
  }

  function Step(o: Options, s: State, e: Event): State {
    match e
    case Call(time) => OnCall(o, s, time)
    case Fire(id, time) =>
      if id !in s.timers then s
      else
        var s1 := s.(timers := s.timers - {id}, clock := time);
        if s.timers[id].kind == Delayed then OnDelayed(o, s1, time) else OnMaxDelayed(o, s1, time)
  }

  function After(o: Options, s: State, events: seq<Event>): State {
    if events == [] then s else Step(o, After(o, s, events[..|events| - 1]), events[|events| - 1])
  }

  predicate Run(o: Options, s: State, events: seq<Event>, prompt: bool) {
    events == [] ||
    (&& Run(o, s, events[..|events| - 1], prompt)
     && Enabled(After(o, s, events[..|events| - 1]), events[|events| - 1], prompt))
  }

  // ---- What every step keeps ----

  function Ids(id: Option<nat>): set<nat> {
    if id.None? then {} else {id.value}
  }

  /** The timers pending are those the closure remembers, one of each kind at most. */
  predicate TimersOk(o: Options, s: State) {
    && s.timers.Keys == Ids(s.timeoutId) + Ids(s.maxTimeoutId)
    && (forall id | id in s.timers :: id < s.nextId)
    && (s.timeoutId.Some? ==> s.timers[s.timeoutId.value].kind == Delayed)
    && (s.maxTimeoutId.Some? ==> s.timers[s.maxTimeoutId.value].kind == MaxDelayed)
    && (o.maxWait.None? ==> s.maxTimeoutId.None?)
    && (Throttling(o) ==> s.timeoutId.None?)
  }

  /** The short timer is not later than it must be, and the long one is exact. */
  predicate DueOk(o: Options, s: State)
    requires TimersOk(o, s)
  {
    && (s.timeoutId.Some? ==> s.timers[s.timeoutId.value].due <= s.stamp + o.wait)
    && (s.maxTimeoutId.Some? && o.maxWait.Some? ==> s.timers[s.maxTimeoutId.value].due == s.lastCalled + o.maxWait.value)
  }

  predicate HistoryOk(s: State) {
    && s.lastCalled <= s.clock && 0 <= s.clock
    && (s.calls != [] ==> s.stamp == s.calls[|s.calls| - 1] <= s.clock)
    && (s.timers != map[] ==> s.calls != [] && s.args == Some(|s.calls| - 1))
    && (forall i | 0 <= i < |s.calls| :: s.calls[i] <= s.clock)
  }

  predicate Inv(o: Options, s: State) {
    TimersOk(o, s) && DueOk(o, s) && HistoryOk(s)
  }

  lemma InitialInv(o: Options, clock: nat)
    ensures Inv(o, Initial(clock))
  {
  }

  lemma SetTimeoutKeepsInv(o: Options, s: State, due: int)
    requires Inv(o, s) && s.timeoutId.None? && !Throttling(o)
    requires s.calls != [] && s.args == Some(|s.calls| - 1) && due <= s.stamp + o.wait
    ensures Inv(o, SetTimeout(s, due))
  {
  }

  lemma SetMaxTimeoutKeepsInv(o: Options, s: State, due: int)
    requires Inv(o, s) && s.maxTimeoutId.None? && o.maxWait.Some?
    requires s.calls != [] && s.args == Some(|s.calls| - 1) && due == s.lastCalled + o.maxWait.value
    ensures Inv(o, SetMaxTimeout(s, due))
  {
  }

  lemma ClearingKeepsInv(o: Options, s: State)
    requires Inv(o, s)
    ensures Inv(o, ClearTimeout(s)) && Inv(o, ClearMaxTimeout(s))
  {
  }

  lemma ForgettingKeepsInv(o: Options, s: State)
    requires Inv(o, s)
    ensures Inv(o, Forget(s))
  {
  }

  lemma ApplyingKeepsInv(o: Options, s: State, now: int)
    requires Inv(o, s)
    ensures Inv(o, Apply(s, now))
    ensures s.maxTimeoutId.None? && s.clock == now ==> Inv(o, s.(lastCalled := now))
  {
  }

  lemma CallMaxKeepsInv(o: Options, s: State, now: int)
    requires o.maxWait.Some? && Inv(o, s) && s.clock == now && s.calls != [] && s.args == Some(|s.calls| - 1)
    ensures var r := CallMax(o, s, now).0;
      Inv(o, r) && r.calls == s.calls && r.args == s.args && r.stamp == s.stamp
  {
    hide Inv, TimersOk;
    ApplyingKeepsInv(o, s, now);
    var s1 := if s.maxTimeoutId.None? && !o.leading then s.(lastCalled := now) else s;
    ClearingKeepsInv(o, s1);
    var cleared := ClearMaxTimeout(s1);
    ApplyingKeepsInv(o, cleared, now);
    ApplyingKeepsInv(o, cleared.(lastCalled := now), now);
    if s1.maxTimeoutId.None? {
      SetMaxTimeoutKeepsInv(o, s1, s1.lastCalled + o.maxWait.value);
    }
  }

  lemma NotingKeepsInv(o: Options, s: State, now: int)
    requires Inv(o, s) && s.clock <= now
    ensures Inv(o, Noted(o, s, now))
  {
  }

  lemma CallKeepsInv(o: Options, s: State, now: int)
    requires Inv(o, s) && s.clock <= now
    ensures Inv(o, OnCall(o, s, now))
  {
    hide Inv, TimersOk, SetTimeout, SetMaxTimeout, ClearTimeout, ClearMaxTimeout;
    var s0 := Noted(o, s, now);
    NotingKeepsInv(o, s, now);
    if o.maxWait.Some? {
      CallMaxKeepsInv(o, s0, now);
    }
    var s1 := if o.maxWait.Some? then CallMax(o, s0, now).0 else s0;
    ClearingKeepsInv(o, s1);
    if s1.timeoutId.None? && !Throttling(o) {
      SetTimeoutKeepsInv(o, s1, now + o.wait);
      ApplyingKeepsInv(o, SetTimeout(s1, now + o.wait), now);
      ForgettingKeepsInv(o, Apply(SetTimeout(s1, now + o.wait), now));
      ForgettingKeepsInv(o, SetTimeout(s1, now + o.wait));
    }
    ApplyingKeepsInv(o, s1, now);
    ForgettingKeepsInv(o, s1);
    ForgettingKeepsInv(o, Apply(s1, now));
    ForgettingKeepsInv(o, ClearTimeout(s1));
  }

  lemma DelayedKeepsInv(o: Options, s: State, id: nat, now: int)
    requires Inv(o, s) && s.clock <= now && id in s.timers && s.timers[id].kind == Delayed
    ensures Inv(o, Step(o, s, Fire(id, now)))
  {
    assert s.timeoutId == Some(id) && o.maxWait != Some(o.wait);
  }

  lemma MaxDelayedKeepsInv(o: Options, s: State, id: nat, now: int)
    requires Inv(o, s) && s.clock <= now && id in s.timers && s.timers[id].kind == MaxDelayed
    ensures Inv(o, Step(o, s, Fire(id, now)))
  {
    assert s.maxTimeoutId == Some(id);
  }

  lemma FireKeepsInv(o: Options, s: State, id: nat, now: int)
    requires Inv(o, s) && s.clock <= now && id in s.timers
    ensures Inv(o, Step(o, s, Fire(id, now)))
  {
    hide Inv, Step;
    if s.timers[id].kind == Delayed {
      DelayedKeepsInv(o, s, id, now);
    } else {
      MaxDelayedKeepsInv(o, s, id, now);
    }
  }

  lemma StepKeepsInv(o: Options, s: State, e: Event, prompt: bool)
    requires Proper(o) && Inv(o, s) && Enabled(s, e, prompt)
    ensures Inv(o, Step(o, s, e))
  {
    hide Inv, OnCall;
    match e {
      case Call(time) => CallKeepsInv(o, s, time);
      case Fire(id, time) => FireKeepsInv(o, s, id, time);
    }
  }

  /** In every run at most one timer of each kind is pending, and they fire when they should. */
  lemma {:induction false} RunKeepsInv(o: Options, s: State, events: seq<Event>, prompt: bool)
    requires Proper(o) && Inv(o, s) && Run(o, s, events, prompt)
    ensures Inv(o, After(o, s, events))
  {
    hide Inv, Step, Enabled;
    if events != [] {
      RunKeepsInv(o, s, events[..|events| - 1], prompt);
      StepKeepsInv(o, After(o, s, events[..|events| - 1]), events[|events| - 1], prompt);
    }
  }
}
