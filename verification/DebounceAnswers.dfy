/** Which calls the invocations of a debounced function answer. */
module DebounceAnswers {
  import opened Optional
  import opened Debounce
  import opened DebounceRuns

  /** Every invocation answers a call, and a later one than the invocation before. */
  predicate AnswersInOrder(s: State) {
    && (forall i | 0 <= i < |s.log| :: s.log[i].args.Some? && s.log[i].args.value < |s.calls|)
    && (forall i, j | 0 <= i < j < |s.log| :: s.log[i].args.Some? && s.log[j].args.Some?
                                           && s.log[i].args.value < s.log[j].args.value)
  }

  /** The last call has not been answered. */
  predicate Unanswered(s: State) {
    s.log != [] && s.log[|s.log| - 1].args.Some? ==> s.log[|s.log| - 1].args.value + 1 < |s.calls|
  }

  /** Only for calls that have not been answered is a timer to invoke; without throttling the long
      timer never runs without the short one. */
  predicate TimersOwe(o: Options, s: State) {
    && AnswersInOrder(s)
    && (s.maxTimeoutId.Some? ==> Unanswered(s))
    && (s.timeoutId.Some? && s.trailingCall ==> Unanswered(s))
    && (s.maxTimeoutId.Some? && !Throttling(o) ==> s.timeoutId.Some?)
  }

  lemma InvokingAnswers(s: State, s': State, now: int)
    requires AnswersInOrder(s) && Unanswered(s) && s.calls != [] && s'.calls == s.calls
    requires s'.log == s.log + [Invocation(now, Some(|s.calls| - 1))]
    ensures AnswersInOrder(s')
  {
  }

  lemma NewCallIsUnanswered(s: State, s': State, now: int)
    requires AnswersInOrder(s) && s'.log == s.log && s'.calls == s.calls + [now]
    ensures AnswersInOrder(s') && Unanswered(s')
  {
  }

  /** How a call leaves timers and log. */
  lemma CallLeaves(o: Options, s: State, now: int)
    requires Inv(o, s) && s.clock <= now && Proper(o) && (s.maxTimeoutId.Some? && !Throttling(o) ==> s.timeoutId.Some?)
    ensures var s' := OnCall(o, s, now);
      && s'.calls == s.calls + [now]
      && (s'.maxTimeoutId.Some? && !Throttling(o) ==> s'.timeoutId.Some?)
      && (s'.log == s.log
          || (s'.log == s.log + [Invocation(now, Some(|s.calls|))]
              && s'.maxTimeoutId.None? && !(s'.timeoutId.Some? && s'.trailingCall)))
  {
    hide SetTimeout, ClearTimeout, CallMax, DueOk;
    var s0 := Noted(o, s, now);
    if o.maxWait.Some? {
      CallMaxLeaves(o, s0, now);
    }
    var s1 := if o.maxWait.Some? then CallMax(o, s0, now).0 else s0;
    TimersKeepRest(s1, now + o.wait);
  }

  lemma CallMaxLeaves(o: Options, s: State, now: int)
    requires o.maxWait.Some? && s.lastCalled <= now
    ensures var (s', isCalled) := CallMax(o, s, now);
      && s'.calls == s.calls && s'.timeoutId == s.timeoutId && s'.trailingCall == s.trailingCall && s'.args == s.args
      && (isCalled ==> s'.maxTimeoutId.None? && s'.log == s.log + [Invocation(now, s.args)]
                       && (s.maxTimeoutId.Some? || o.leading || o.maxWait == Some(0)))
      && (!isCalled ==> s'.log == s.log)
  {
  }

  lemma CallOwes(o: Options, s: State, now: int)
    requires Proper(o) && Inv(o, s) && s.clock <= now && TimersOwe(o, s)
    ensures TimersOwe(o, OnCall(o, s, now))
  {
    CallLeaves(o, s, now);
    hide Inv, OnCall, AnswersInOrder, Unanswered;
    var s' := OnCall(o, s, now);
    var noted := s.(calls := s.calls + [now]);
    NewCallIsUnanswered(s, noted, now);
    if s'.log == s.log {
      NewCallIsUnanswered(s, s', now);
    } else {
      InvokingAnswers(noted, s', now);
    }
  }

  lemma FireOwes(o: Options, s: State, id: nat, now: int, prompt: bool)
    requires Proper(o) && Inv(o, s) && Enabled(s, Fire(id, now), prompt) && TimersOwe(o, s)
    ensures TimersOwe(o, Step(o, s, Fire(id, now)))
  {
    var s' := Step(o, s, Fire(id, now));
    assert s.timers[id].kind == Delayed ==> s.timeoutId == Some(id);
    assert s.timers[id].kind == MaxDelayed ==> s.maxTimeoutId == Some(id);
    hide AnswersInOrder, Unanswered, TimersOk, DueOk;
    if s'.log == s.log {
      SameAnswers(s, s');
    } else {
      InvokingAnswers(s, s', now);
    }
  }

  lemma SameAnswers(s: State, s': State)
    requires s'.log == s.log && s'.calls == s.calls
    ensures AnswersInOrder(s') == AnswersInOrder(s) && Unanswered(s') == Unanswered(s)
  {
  }

  /** In every run, prompt or not, every invocation answers a call, the answers come in the order of
      the calls, and no call is answered twice. */
  lemma {:induction false} NoCallTwice(o: Options, clock: nat, events: seq<Event>, prompt: bool)
    requires Proper(o) && Run(o, Initial(clock), events, prompt)
    ensures var s := After(o, Initial(clock), events); AnswersInOrder(s) && TimersOwe(o, s)
  {
    hide Step, Enabled, Inv;
    if events != [] {
      var before, last := events[..|events| - 1], events[|events| - 1];
      NoCallTwice(o, clock, before, prompt);
      InitialInv(o, clock);
      RunKeepsInv(o, Initial(clock), before, prompt);
      StepOwes(o, After(o, Initial(clock), before), last, prompt);
    }
  }

  lemma StepOwes(o: Options, s: State, e: Event, prompt: bool)
    requires Proper(o) && Inv(o, s) && Enabled(s, e, prompt) && TimersOwe(o, s)
    ensures TimersOwe(o, Step(o, s, e)) && AnswersInOrder(Step(o, s, e))
  {
    hide Inv, OnCall, AnswersInOrder, Unanswered;
    match e
    case Call(time) => CallOwes(o, s, time);
    case Fire(id, time) => FireOwes(o, s, id, time, prompt);
  }

  /** The first call is answered at once exactly with leading on, or a `maxWait` of 0, provided that
      the clock has come as far as `maxWait`. */
  lemma FirstCall(o: Options, clock: nat, now: int)
    requires clock <= now && (o.maxWait.Some? ==> o.maxWait.value <= now)
    ensures Step(o, Initial(clock), Call(now)).log ==
            if o.leading || o.maxWait == Some(0) then [Invocation(now, Some(0))] else []
  {
    var s0 := Noted(o, Initial(clock), now);
    assert s0.args == Some(0) && s0.log == [] && s0.timeoutId.None? && s0.maxTimeoutId.None?;
    if o.maxWait.Some? {
      MaxInvokesOrWaits(o, s0, now);
    }
    var s1 := if o.maxWait.Some? then CallMax(o, s0, now).0 else s0;
    TimersKeepRest(s1, now + o.wait);
    hide CallMax, SetTimeout, ClearTimeout;
  }
}
