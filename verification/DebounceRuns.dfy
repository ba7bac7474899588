/** What debounced and throttled functions do over whole runs of calls and timers. */
module DebounceRuns {
  import opened Optional
  import opened Debounce

  /** Without `maxWait` at most one timer is pending; at most two are with it. */
  lemma FewTimers(o: Options, clock: nat, events: seq<Event>, prompt: bool)
    requires Proper(o) && Run(o, Initial(clock), events, prompt)
    ensures |After(o, Initial(clock), events).timers| <= if o.maxWait.None? || Throttling(o) then 1 else 2
  {
    hide After, Run;
    InitialInv(o, clock);
    RunKeepsInv(o, Initial(clock), events, prompt);
    var s := After(o, Initial(clock), events);
    assert |s.timers| == |s.timers.Keys|;
    assert |Ids(s.timeoutId)| <= 1 && |Ids(s.maxTimeoutId)| <= 1;
    assert s.timeoutId.None? ==> s.timers.Keys == Ids(s.maxTimeoutId);
    assert s.maxTimeoutId.None? ==> s.timers.Keys == Ids(s.timeoutId);
  }

  // ---- Throttle: invocations keep their distance ----

  predicate Spaced(wait: nat, log: seq<Invocation>) {
    forall i | 0 < i < |log| :: log[i - 1].time + wait <= log[i].time
  }

  predicate SpacedUntil(wait: nat, s: State) {
    Spaced(wait, s.log) && (s.log != [] ==> s.log[|s.log| - 1].time <= s.lastCalled)
  }

  /** A call with `maxWait` invokes at once or leaves the long timer pending. */
  predicate Invokes(s: State, s': State, now: int) {
    s'.log == s.log + [Invocation(now, Some(|s.calls|))] && s'.lastCalled == now
  }

  predicate Waits(o: Options, s: State, s': State, now: int) {
    && s'.log == s.log && s'.maxTimeoutId.Some?
    && (s'.lastCalled == s.lastCalled || (s'.lastCalled == now && s.maxTimeoutId.None?))
    && s'.trailingCall == (o.trailing && (s.timeoutId.Some? || !o.leading))
    && (Throttling(o) ==> s'.timeoutId == s.timeoutId)
  }

  lemma CallInvokesOrWaits(o: Options, s: State, now: int)
    requires o.maxWait.Some? && s.lastCalled <= now
    ensures var s' := OnCall(o, s, now);
      && s'.calls == s.calls + [now]
      && if s.lastCalled + o.maxWait.value <= now && (s.maxTimeoutId.Some? || o.leading || o.maxWait == Some(0))
         then Invokes(s, s', now)
         else Waits(o, s, s', now)
  {
    var s0 := Noted(o, s, now);
    MaxInvokesOrWaits(o, s0, now);
    var (s1, isCalled) := CallMax(o, s0, now);
    TimersKeepRest(s1, now + o.wait);
    hide CallMax, SetTimeout, ClearTimeout;
  }

  lemma MaxInvokesOrWaits(o: Options, s: State, now: int)
    requires o.maxWait.Some? && s.lastCalled <= now
    ensures var (s', isCalled) := CallMax(o, s, now);
      && s'.calls == s.calls && s'.timeoutId == s.timeoutId && s'.trailingCall == s.trailingCall
      && isCalled == (s.lastCalled + o.maxWait.value <= now && (s.maxTimeoutId.Some? || o.leading || o.maxWait == Some(0)))
      && (isCalled ==> s'.log == s.log + [Invocation(now, s.args)] && s'.lastCalled == now)
      && (!isCalled ==> s'.log == s.log && s'.maxTimeoutId.Some?)
      && (!isCalled ==> s'.lastCalled == s.lastCalled || (s'.lastCalled == now && s.maxTimeoutId.None?))
  {
  }

  lemma TimersKeepRest(s: State, due: int)
    ensures ClearTimeout(s) == s.(timeoutId := None, timers := ClearTimeout(s).timers)
    ensures SetTimeout(s, due) == s.(timeoutId := Some(s.nextId), timers := SetTimeout(s, due).timers, nextId := s.nextId + 1)
  {
  }

  lemma SpacedAppend(wait: nat, log: seq<Invocation>, v: Invocation)
    requires Spaced(wait, log) && (log != [] ==> log[|log| - 1].time + wait <= v.time)
    ensures Spaced(wait, log + [v])
  {
  }

  lemma CallKeepsSpaced(o: Options, s: State, now: int)
    requires Throttling(o) && s.lastCalled <= s.clock <= now && SpacedUntil(o.wait, s)
    ensures SpacedUntil(o.wait, OnCall(o, s, now))
  {
    CallInvokesOrWaits(o, s, now);
    hide OnCall, Spaced;
    if s.lastCalled + o.wait <= now {
      SpacedAppend(o.wait, s.log, Invocation(now, Some(|s.calls|)));
    }
  }

  lemma FireKeepsSpaced(o: Options, s: State, id: nat, now: int, prompt: bool)
    requires Throttling(o) && Inv(o, s) && Enabled(s, Fire(id, now), prompt) && SpacedUntil(o.wait, s)
    ensures SpacedUntil(o.wait, Step(o, s, Fire(id, now)))
  {
    hide Spaced;
    assert s.maxTimeoutId == Some(id) && s.timers[id].kind == MaxDelayed && s.lastCalled + o.wait <= now;
    SpacedAppend(o.wait, s.log, Invocation(now, s.args));
    hide Inv;
  }

  lemma StepKeepsSpaced(o: Options, s: State, e: Event, prompt: bool)
    requires Throttling(o) && Inv(o, s) && Enabled(s, e, prompt) && SpacedUntil(o.wait, s)
    ensures SpacedUntil(o.wait, Step(o, s, e))
  {
    hide SpacedUntil, OnCall;
    match e {
      case Call(time) => CallKeepsSpaced(o, s, time);
      case Fire(id, time) => FireKeepsSpaced(o, s, id, time, prompt);
    }
  }

  /** Two invocations of a throttled function are at least `wait` apart, however calls come and
      however late the timers are. */
  lemma {:induction false} ThrottleSpaces(o: Options, clock: nat, events: seq<Event>, prompt: bool)
    requires Throttling(o) && Run(o, Initial(clock), events, prompt)
    ensures SpacedUntil(o.wait, After(o, Initial(clock), events))
  {
    hide Step, Enabled, Inv;
    if events != [] {
      var before := events[..|events| - 1];
      ThrottleSpaces(o, clock, before, prompt);
      InitialInv(o, clock);
      RunKeepsInv(o, Initial(clock), before, prompt);
      StepKeepsSpaced(o, After(o, Initial(clock), before), events[|events| - 1], prompt);
    }
  }

  // ---- Every call is followed by an invocation ----

  /** Invoked for call `i` or a later one, no later than `limit` after it. */
  predicate Answered(s: State, i: nat, limit: nat)
    requires i < |s.calls|
  {
    exists k | 0 <= k < |s.log| :: Answers(s.log[k], i, s.calls[i], limit)
  }

  predicate Answers(v: Invocation, i: nat, call: int, limit: nat) {
    v.args.Some? && v.args.value >= i && call <= v.time <= call + limit
  }

  /** The long timer will answer call `i`, or the short one before it. */
  predicate Promised(s: State, i: nat)
    requires i < |s.calls|
  {
    s.maxTimeoutId.Some? && s.lastCalled <= s.calls[i] && (s.timeoutId.Some? ==> s.trailingCall)
  }

  predicate AllAnswered(limit: nat, s: State) {
    forall i | 0 <= i < |s.calls| :: Answered(s, i, limit) || Promised(s, i)
  }

  predicate Follows(o: Options) {
    o.trailing && o.maxWait.Some? && (!o.leading || Throttling(o))
  }

  lemma CallAnswers(o: Options, s: State, now: int, i: nat)
    requires Follows(o) && Inv(o, s) && Enabled(s, Call(now), true) && i <= |s.calls|
    requires i < |s.calls| ==> Promised(s, i)
    ensures var s' := OnCall(o, s, now); Answered(s', i, o.maxWait.value) || Promised(s', i)
  {
    CallInvokesOrWaits(o, s, now);
    hide OnCall;
    var s' := OnCall(o, s, now);
    if Invokes(s, s', now) {
      assert i < |s.calls| ==> s.timers[s.maxTimeoutId.value].due == s.lastCalled + o.maxWait.value;
      assert Answers(s'.log[|s.log|], i, s'.calls[i], o.maxWait.value);
    }
  }

  lemma FireAnswers(o: Options, s: State, id: nat, now: int, i: nat)
    requires Follows(o) && Proper(o) && Inv(o, s) && Enabled(s, Fire(id, now), true) && i < |s.calls| && Promised(s, i)
    ensures var s' := Step(o, s, Fire(id, now)); Answered(s', i, o.maxWait.value) || Promised(s', i)
  {
    var s' := Step(o, s, Fire(id, now));
    if |s'.log| > |s.log| {
      assert Answers(s'.log[|s.log|], i, s'.calls[i], o.maxWait.value);
    }
  }

  lemma CallGrows(o: Options, s: State, now: int)
    ensures var s' := OnCall(o, s, now); s.log <= s'.log && s'.calls == s.calls + [now]
  {
    hide SetTimeout, SetMaxTimeout, ClearTimeout, ClearMaxTimeout, CallMax;
    var s0 := Noted(o, s, now);
    if o.maxWait.Some? {
      CallMaxGrows(o, s0, now);
    }
    var s1 := if o.maxWait.Some? then CallMax(o, s0, now).0 else s0;
    TimersKeepHistory(s1, now + o.wait);
  }

  lemma TimersKeepHistory(s: State, due: int)
    ensures ClearTimeout(s).log == ClearMaxTimeout(s).log == SetTimeout(s, due).log == SetMaxTimeout(s, due).log == s.log
    ensures ClearTimeout(s).calls == ClearMaxTimeout(s).calls == SetTimeout(s, due).calls == SetMaxTimeout(s, due).calls == s.calls
  {
  }

  lemma CallMaxGrows(o: Options, s: State, now: int)
    requires o.maxWait.Some?
    ensures var s' := CallMax(o, s, now).0; s.log <= s'.log && s'.calls == s.calls
  {
  }

  lemma HistoryGrows(o: Options, s: State, e: Event)
    ensures var s' := Step(o, s, e);
      s.log <= s'.log && s'.calls == if e.Call? then s.calls + [e.time] else s.calls
  {
    hide OnCall;
    if e.Call? {
      CallGrows(o, s, e.time);
    }
  }

  lemma StepAnswers(o: Options, s: State, e: Event)
    requires Follows(o) && Proper(o) && Inv(o, s) && Enabled(s, e, true) && AllAnswered(o.maxWait.value, s)
    ensures AllAnswered(o.maxWait.value, Step(o, s, e))
  {
    hide Inv, Enabled, OnCall, OnDelayed, OnMaxDelayed, Promised;
    var s' := Step(o, s, e);
    HistoryGrows(o, s, e);
    forall i | 0 <= i < |s'.calls|
      ensures Answered(s', i, o.maxWait.value) || Promised(s', i)
    {
      if i < |s.calls| && Answered(s, i, o.maxWait.value) {
        var k :| 0 <= k < |s.log| && Answers(s.log[k], i, s.calls[i], o.maxWait.value);
        assert Answers(s'.log[k], i, s'.calls[i], o.maxWait.value);
      } else {
        match e {
          case Call(time) => CallAnswers(o, s, time, i);
          case Fire(id, time) => FireAnswers(o, s, id, time, i);
        }
      }
    }
  }

  lemma {:induction false} RunAnswers(o: Options, clock: nat, events: seq<Event>)
    requires Follows(o) && Proper(o) && Run(o, Initial(clock), events, true)
    ensures AllAnswered(o.maxWait.value, After(o, Initial(clock), events))
  {
    hide Inv, Step, Enabled, Follows, Promised;
    if events != [] {
      var before := events[..|events| - 1];
      RunAnswers(o, clock, before);
      InitialInv(o, clock);
      RunKeepsInv(o, Initial(clock), before, true);
      StepAnswers(o, After(o, Initial(clock), before), events[|events| - 1]);
    }
  }

  /** A run with prompt timers, at a time `t` more than `maxWait` after call `i`. */
  predicate LongAfter(o: Options, clock: nat, events: seq<Event>, i: nat, t: int) {
    && o.maxWait.Some? && Run(o, Initial(clock), events, true)
    && var s := After(o, Initial(clock), events);
       i < |s.calls| && s.calls[i] + o.maxWait.value < t && forall id | id in s.timers :: t <= s.timers[id].due
  }

  /** With trailing on and prompt timers, every call is followed within `maxWait` by an invocation
      with arguments at least as recent; for `throttle` that is within `wait`. */
  lemma EveryCallIsAnswered(o: Options, clock: nat, events: seq<Event>, i: nat, t: int)
    requires Follows(o) && Proper(o) && LongAfter(o, clock, events, i, t)
    ensures Answered(After(o, Initial(clock), events), i, o.maxWait.value)
  {
    hide After, Run, Answered;
    RunAnswers(o, clock, events);
    InitialInv(o, clock);
    RunKeepsInv(o, Initial(clock), events, true);
  }

  lemma RunExtends(o: Options, s: State, events: seq<Event>, e: Event, longer: seq<Event>, prompt: bool)
    requires Run(o, s, events, prompt) && Enabled(After(o, s, events), e, prompt) && longer == events + [e]
    ensures Run(o, s, longer, prompt) && After(o, s, longer) == Step(o, After(o, s, events), e)
  {
    assert longer[..|longer| - 1] == events;
  }

  /** Some call is never answered, though all timers are prompt. */
  predicate Drops(o: Options, s: State, i: nat)
    requires o.maxWait.Some?
  {
    i < |s.calls| && s.timers == map[] && !Answered(s, i, o.maxWait.value)
  }

  ghost predicate CanDrop(o: Options)
    requires o.maxWait.Some?
  {
    exists events, i :: Run(o, Initial(0), events, true) && Drops(o, After(o, Initial(0), events), i)
  }

  // The state of a run in which the short timer has run out, for m == maxWait and w == wait.

  function AfterShortTimer(m: nat, w: nat): State {
    State(Some(0), m, m, false, None, None, map[], 2, m + w, [m], [Invocation(m, Some(0))])
  }

  predicate VerySlow(o: Options) {
    o.trailing && o.leading && o.maxWait.Some? && o.wait < o.maxWait.value && 2 * o.wait <= o.maxWait.value
  }

  lemma ShortTimer(o: Options)
    requires VerySlow(o)
    ensures var m, w := o.maxWait.value, o.wait;
      var events := [Call(m), Fire(1, m + w)];
      Run(o, Initial(0), events, true) && After(o, Initial(0), events) == AfterShortTimer(m, w)
  {
    var m, w, s0 := o.maxWait.value, o.wait, Initial(0);
    var e1, e2 := Call(m), Fire(1, m + w);
    var s1 := Step(o, s0, e1);
    assert s1.timers == map[1 := Timer(Delayed, m + w)] && s1.log == [Invocation(m, Some(0))];
    assert Enabled(s0, e1, true) && Enabled(s1, e2, true);
    assert Step(o, s1, e2) == AfterShortTimer(m, w);
    hide Step, Enabled, AfterShortTimer;
    RunExtends(o, s0, [], e1, [e1], true);
    RunExtends(o, s0, [e1], e2, [e1, e2], true);
  }

  lemma SecondCallIsLost(o: Options)
    requires VerySlow(o)
    ensures var m, w := o.maxWait.value, o.wait;
      var s2 := AfterShortTimer(m, w);
      var s3 := Step(o, s2, Call(m + w));
      && Enabled(s2, Call(m + w), true) && Enabled(s3, Fire(3, m + 2 * w), true)
      && Drops(o, Step(o, s3, Fire(3, m + 2 * w)), 1)
  {
    var m, w := o.maxWait.value, o.wait;
    var s2 := AfterShortTimer(m, w);
    var s3 := Step(o, s2, Call(m + w));
    assert s3.timers == map[2 := Timer(MaxDelayed, 2 * m), 3 := Timer(Delayed, m + 2 * w)] && s3.log == s2.log;
    assert !s3.trailingCall && s3.stamp == m + w;
    var s4 := Step(o, s3, Fire(3, m + 2 * w));
    assert s4.timers == map[] && s4.log == s2.log && s4.calls == [m, m + w];
  }

  /** The short timer has run out; the next call sets both timers, but is no trailing call. */
  lemma LostAfterShort(o: Options)
    requires VerySlow(o)
    ensures CanDrop(o)
  {
    hide Step, Enabled, Drops, AfterShortTimer;
    var m, w, s0 := o.maxWait.value, o.wait, Initial(0);
    var e1, e2, e3, e4 := Call(m), Fire(1, m + w), Call(m + w), Fire(3, m + 2 * w);
    ShortTimer(o);
    SecondCallIsLost(o);
    RunExtends(o, s0, [e1, e2], e3, [e1, e2, e3], true);
    RunExtends(o, s0, [e1, e2, e3], e4, [e1, e2, e3, e4], true);
    assert Run(o, s0, [e1, e2, e3, e4], true);
  }

  // The states of a run in which the long timer runs out first, for m == maxWait and w == wait.

  function AfterTwoCalls(m: nat, w: nat): State {
    State(Some(1), m + w, m, true, Some(1), Some(2), map[1 := Timer(Delayed, m + w), 2 := Timer(MaxDelayed, 2 * m)],
          3, m + w, [m, m + w], [Invocation(m, Some(0))])
  }

  function AfterLongTimer(m: nat, w: nat): State {
    State(None, m + w, 2 * m, false, None, None, map[], 4, 2 * m, [m, m + w],
          [Invocation(m, Some(0)), Invocation(2 * m, Some(1))])
  }

  predicate Slow(o: Options) {
    o.trailing && o.leading && o.maxWait.Some? && o.wait < o.maxWait.value < 2 * o.wait
  }

  lemma TwoCalls(o: Options)
    requires Slow(o)
    ensures var m, w := o.maxWait.value, o.wait;
      var events := [Call(m), Call(m + w)];
      Run(o, Initial(0), events, true) && After(o, Initial(0), events) == AfterTwoCalls(m, w)
  {
    var m, w, s0 := o.maxWait.value, o.wait, Initial(0);
    var e1, e2 := Call(m), Call(m + w);
    var s1 := Step(o, s0, e1);
    assert s1.timers == map[1 := Timer(Delayed, m + w)] && s1.log == [Invocation(m, Some(0))] && s1.calls == [m];
    assert Enabled(s0, e1, true) && Enabled(s1, e2, true);
    assert Step(o, s1, e2) == AfterTwoCalls(m, w);
    hide Step, Enabled, AfterTwoCalls;
    RunExtends(o, s0, [], e1, [e1], true);
    RunExtends(o, s0, [e1], e2, [e1, e2], true);
  }

  lemma BothTimers(o: Options)
    requires Slow(o)
    ensures var m, w := o.maxWait.value, o.wait;
      var events := [Call(m), Call(m + w), Fire(1, m + w), Fire(2, 2 * m)];
      Run(o, Initial(0), events, true) && After(o, Initial(0), events) == AfterLongTimer(m, w)
  {
    var m, w, s0 := o.maxWait.value, o.wait, Initial(0);
    var e1, e2, e3, e4 := Call(m), Call(m + w), Fire(1, m + w), Fire(2, 2 * m);
    var s2 := AfterTwoCalls(m, w);
    TwoCalls(o);
    var s3 := Step(o, s2, e3);
    assert s3.timers == map[2 := Timer(MaxDelayed, 2 * m), 3 := Timer(Delayed, m + 2 * w)];
    assert Enabled(s2, e3, true) && Enabled(s3, e4, true);
    assert Step(o, s3, e4) == AfterLongTimer(m, w);
    hide Step, Enabled, AfterTwoCalls, AfterLongTimer;
    RunExtends(o, s0, [e1, e2], e3, [e1, e2, e3], true);
    RunExtends(o, s0, [e1, e2, e3], e4, [e1, e2, e3, e4], true);
  }

  lemma ThirdCallIsLost(o: Options)
    requires Slow(o)
    ensures var m, w := o.maxWait.value, o.wait;
      var s4 := AfterLongTimer(m, w);
      var s5 := Step(o, s4, Call(2 * m));
      && Enabled(s4, Call(2 * m), true) && Enabled(s5, Fire(5, 2 * m + w), true)
      && Drops(o, Step(o, s5, Fire(5, 2 * m + w)), 2)
  {
    var m, w := o.maxWait.value, o.wait;
    var s4 := AfterLongTimer(m, w);
    var s5 := Step(o, s4, Call(2 * m));
    assert s5.timers == map[4 := Timer(MaxDelayed, 3 * m), 5 := Timer(Delayed, 2 * m + w)] && s5.log == s4.log;
    assert !s5.trailingCall;
    var s6 := Step(o, s5, Fire(5, 2 * m + w));
    assert s6.timers == map[] && s6.log == s4.log && s6.calls == [m, m + w, 2 * m];
  }

  /** The long timer has run out and cleared the short one; the next call is no trailing call. */
  lemma LostAfterLong(o: Options)
    requires Slow(o)
    ensures CanDrop(o)
  {
    hide Step, Enabled, Drops, AfterLongTimer;
    var m, w, s0 := o.maxWait.value, o.wait, Initial(0);
    var e1, e2, e3, e4, e5, e6 := Call(m), Call(m + w), Fire(1, m + w), Fire(2, 2 * m), Call(2 * m), Fire(5, 2 * m + w);
    BothTimers(o);
    ThirdCallIsLost(o);
    RunExtends(o, s0, [e1, e2, e3, e4], e5, [e1, e2, e3, e4, e5], true);
    RunExtends(o, s0, [e1, e2, e3, e4, e5], e6, [e1, e2, e3, e4, e5, e6], true);
    assert Run(o, s0, [e1, e2, e3, e4, e5, e6], true);
  }

  /** With trailing on, calls can be dropped exactly when leading is on too and `maxWait` is longer
      than `wait`. */
  lemma DropsExactlyWhen(o: Options)
    requires o.trailing && o.maxWait.Some? && Proper(o)
    ensures CanDrop(o) <==> o.leading && o.wait < o.maxWait.value
  {
    if o.leading && o.wait < o.maxWait.value {
      if 2 * o.wait <= o.maxWait.value {
        LostAfterShort(o);
      } else {
        LostAfterLong(o);
      }
    } else {
      forall events, i | Run(o, Initial(0), events, true)
        ensures !Drops(o, After(o, Initial(0), events), i)
      {
        NeverDrops(o, events, i);
      }
    }
  }

  lemma NeverDrops(o: Options, events: seq<Event>, i: nat)
    requires Follows(o) && Proper(o) && Run(o, Initial(0), events, true)
    ensures !Drops(o, After(o, Initial(0), events), i)
  {
    hide After, Run, Answered;
    var s := After(o, Initial(0), events);
    if i < |s.calls| && s.timers == map[] {
      EveryCallIsAnswered(o, 0, events, i, s.calls[i] + o.maxWait.value + 1);
    }
  }

  // ---- Debounce without maxWait ----

  /** The events from a call that finds the wrapper idle to when it is idle again. */
  predicate Burst(o: Options, s: State, events: seq<Event>) {
    && events != [] && events[0].Call?
    && s.timeoutId.None? && After(o, s, events).timeoutId.None?
    && forall k | 0 < k < |events| :: After(o, s, events[..k]).timeoutId.Some?
  }

  function Leading(o: Options, s: State, time: int): seq<Invocation> {
    if o.leading then [Invocation(time, Some(|s.calls|))] else []
  }

  function Trailing(o: Options, n: nat, time: int, last: int): seq<Invocation>
    requires last >= 0
  {
    if o.trailing && (n >= 2 || !o.leading) then [Invocation(time, Some(last))] else []
  }

  /** In the middle of a burst that `s` was idle before, after its first event at time `first`. */
  predicate Amid(o: Options, s: State, first: int, m: State) {
    && m.timeoutId.Some? && |m.calls| > |s.calls| && s.calls <= m.calls && m.calls[|s.calls|] == first
    && m.log == s.log + Leading(o, s, first)
    && m.trailingCall == (o.trailing && (|m.calls| - |s.calls| >= 2 || !o.leading))
  }

  lemma FirstOfBurst(o: Options, s: State, time: int)
    requires o.maxWait.None? && Inv(o, s) && s.timeoutId.None?
    ensures Amid(o, s, time, Step(o, s, Call(time)))
  {
  }

  lemma StepInBurst(o: Options, s: State, first: int, m: State, e: Event, prompt: bool)
    requires o.maxWait.None? && Inv(o, m) && Amid(o, s, first, m) && Enabled(m, e, prompt)
    ensures var m' := Step(o, m, e);
      if m'.timeoutId.Some? then Amid(o, s, first, m')
      else
        && e.Fire? && m'.calls == m.calls
        && m'.log == m.log + Trailing(o, |m.calls| - |s.calls|, e.time, |m.calls| - 1)
        && e.time >= m.calls[|m.calls| - 1] + o.wait && (prompt ==> e.time == m.calls[|m.calls| - 1] + o.wait)
  {
  }

  lemma {:induction false} BurstSoFar(o: Options, s: State, events: seq<Event>, k: nat, prompt: bool)
    requires Proper(o) && o.maxWait.None? && Inv(o, s) && Run(o, s, events, prompt) && Burst(o, s, events) && 0 < k < |events|
    ensures Inv(o, After(o, s, events[..k])) && Amid(o, s, events[0].time, After(o, s, events[..k]))
    ensures Enabled(After(o, s, events[..k]), events[k], prompt)
  {
    hide Inv, Step, Enabled, Amid;
    RunPrefix(o, s, events, k + 1, prompt);
    RunPrefix(o, s, events, k, prompt);
    assert events[..k + 1][..k] == events[..k];
    RunKeepsInv(o, s, events[..k], prompt);
    if k == 1 {
      assert events[..1][..0] == [];
      FirstOfBurst(o, s, events[0].time);
    } else {
      BurstSoFar(o, s, events, k - 1, prompt);
      assert events[..k][..k - 1] == events[..k - 1];
      StepInBurst(o, s, events[0].time, After(o, s, events[..k - 1]), events[k - 1], prompt);
    }
  }

  lemma {:induction false} RunPrefix(o: Options, s: State, events: seq<Event>, k: nat, prompt: bool)
    requires Run(o, s, events, prompt) && k <= |events|
    ensures Run(o, s, events[..k], prompt)
    decreases |events|
  {
    if k == |events| {
      assert events[..k] == events;
    } else {
      RunPrefix(o, s, events[..|events| - 1], k, prompt);
      assert events[..|events| - 1][..k] == events[..k];
    }
  }

  /** A burst invokes for its first call when leading is on, and for its last one when trailing
      is on and that is not already done: at least `wait` after the last call, and with prompt
      timers exactly then. */
  lemma BurstInvokes(o: Options, s: State, events: seq<Event>, prompt: bool)
    requires Proper(o) && o.maxWait.None? && Inv(o, s) && Run(o, s, events, prompt) && Burst(o, s, events)
    ensures var s' := After(o, s, events);
      var n, time := |s'.calls| - |s.calls|, events[|events| - 1].time;
      && n >= 1 && s.calls <= s'.calls && s'.calls[|s.calls|] == events[0].time
      && s'.log == s.log + Leading(o, s, events[0].time) + Trailing(o, n, time, |s'.calls| - 1)
      && time >= s'.calls[|s'.calls| - 1] + o.wait && (prompt ==> time == s'.calls[|s'.calls| - 1] + o.wait)
  {
    hide Inv, Step, Enabled;
    var k := |events| - 1;
    assert events[..k + 1] == events;
    if k == 0 {
      assert events[..0] == [];
      FirstOfBurst(o, s, events[0].time);
    } else {
      BurstSoFar(o, s, events, k, prompt);
      StepInBurst(o, s, events[0].time, After(o, s, events[..k]), events[k], prompt);
    }
  }
}
