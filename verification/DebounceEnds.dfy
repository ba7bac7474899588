/** How a burst of calls ends: what the timers still invoke once no call follows. */
module DebounceEnds {
  import opened Optional
  import opened Debounce
  import opened DebounceRuns

  /** In range, the options are kept as they are given. */
  lemma OptionsAreKept(wait: nat, leading: bool, trailing: bool, maxWait: Option<int>)
    requires maxWait.Some? ==> wait <= maxWait.value
    ensures var o := DebounceOptions(wait, leading, trailing, maxWait);
      && o.wait == wait && o.leading == leading && o.trailing == trailing && Proper(o)
      && (if maxWait.None? then o.maxWait.None? else o.maxWait.Some? && o.maxWait.value == maxWait.value)
    ensures ThrottleOptions(wait, leading, trailing) == Options(wait, leading, trailing, Some(wait))
  {
  }

  /** When the long timer runs out. */
  function LongDue(s: State): Option<int> {
    if s.maxTimeoutId.Some? && s.maxTimeoutId.value in s.timers then Some(s.timers[s.maxTimeoutId.value].due) else None
  }

  function Last(s: State, time: int): seq<Invocation> {
    [Invocation(time, s.args)]
  }

  /** The invocations still to come from `s` on, with no more calls: `wait` after the last call if
      the short timer is first, and when the long timer runs out otherwise; when both are due at
      once either may be first. */
  predicate Finale(o: Options, s: State, more: seq<Invocation>) {
    var end := s.stamp + o.wait;
    var byShort := if s.trailingCall then Last(s, end) else [];
    match LongDue(s)
    case None => more == if s.timeoutId.Some? then byShort else []
    case Some(due) =>
      var byLong := if o.trailing || o.maxWait != Some(o.wait) then Last(s, due) else [];
      if s.timeoutId.None? || due < end then more == byLong
      else if end < due then more == byShort
      else more == byShort || more == byLong
  }

  /** No call has come since `s`, and nothing has been invoked. */
  predicate Still(s: State, m: State) {
    && m.log == s.log && m.stamp == s.stamp && m.args == s.args && m.trailingCall == s.trailingCall
    && (m.timeoutId.Some? <==> s.timeoutId.Some?) && LongDue(m) == LongDue(s)
  }

  lemma ShortRunsOut(o: Options, s: State, id: nat, now: int)
    requires Inv(o, s) && Enabled(s, Fire(id, now), true) && s.timers[id].kind == Delayed
    ensures var s' := Step(o, s, Fire(id, now));
      if now < s.stamp + o.wait then Still(s, s') && s'.timers != map[]
      else s'.timers == map[] && |s.log| <= |s'.log| && s'.log[..|s.log|] == s.log && Finale(o, s, s'.log[|s.log|..])
  {
    assert s.timeoutId == Some(id);
    assert now == s.timers[id].due <= s.stamp + o.wait;
    var s' := Step(o, s, Fire(id, now));
    if now < s.stamp + o.wait {
      assert s'.timeoutId.Some? && s'.timeoutId.value in s'.timers;
    } else {
      assert s'.timers.Keys == {};
    }
  }

  lemma LongRunsOut(o: Options, s: State, id: nat, now: int)
    requires Inv(o, s) && Enabled(s, Fire(id, now), true) && s.timers[id].kind == MaxDelayed
    ensures var s' := Step(o, s, Fire(id, now));
      s'.timers == map[] && |s.log| <= |s'.log| && s'.log[..|s.log|] == s.log && Finale(o, s, s'.log[|s.log|..])
  {
    assert s.maxTimeoutId == Some(id);
    assert now == s.timers[id].due;
    var s' := Step(o, s, Fire(id, now));
    assert s'.timers.Keys == {};
  }

  lemma TimersRunOut(o: Options, s: State, id: nat, now: int)
    requires Inv(o, s) && Enabled(s, Fire(id, now), true)
    ensures var s' := Step(o, s, Fire(id, now));
      || (Still(s, s') && s'.timers != map[])
      || (s'.timers == map[] && s.log <= s'.log && Finale(o, s, s'.log[|s.log|..]))
  {
    hide Inv, Step, Finale;
    if s.timers[id].kind == Delayed {
      ShortRunsOut(o, s, id, now);
    } else {
      LongRunsOut(o, s, id, now);
    }
  }

  predicate OnlyTimers(events: seq<Event>) {
    forall i | 0 <= i < |events| :: events[i].Fire?
  }

  lemma {:induction false} EndSoFar(o: Options, s: State, events: seq<Event>)
    requires Proper(o) && Inv(o, s) && OnlyTimers(events) && Run(o, s, events, true) && s.timers != map[]
    ensures var m := After(o, s, events);
      || (Still(s, m) && m.timers != map[])
      || (m.timers == map[] && s.log <= m.log && Finale(o, s, m.log[|s.log|..]))
  {
    hide Inv, Step, Finale, Enabled;
    if events != [] {
      var init, last := events[..|events| - 1], events[|events| - 1];
      EndSoFar(o, s, init);
      RunKeepsInv(o, s, init, true);
      var m := After(o, s, init);
      TimerIsPending(m, last);
      TimersRunOut(o, m, last.id, last.time);
      SameFinale(o, s, m);
    }
  }

  lemma TimerIsPending(m: State, e: Event)
    requires e.Fire? && Enabled(m, e, true)
    ensures m.timers != map[]
  {
  }

  lemma SameFinale(o: Options, s: State, m: State)
    ensures Still(s, m) ==> forall more :: Finale(o, m, more) == Finale(o, s, more)
  {
  }

  /** Once only prompt timers run until none is pending, exactly the invocations of `Finale` have
      been made: the trailing one comes `wait` after the last call, unless the long timer runs out
      first. */
  lemma QuietEnd(o: Options, s: State, events: seq<Event>)
    requires Proper(o) && Inv(o, s) && OnlyTimers(events) && Run(o, s, events, true)
    requires After(o, s, events).timers == map[]
    ensures var s' := After(o, s, events); s.log <= s'.log && Finale(o, s, s'.log[|s.log|..])
  {
    hide Inv, Step, Finale, Enabled;
    if s.timers == map[] {
      if events != [] {
        NothingPending(o, s, events);
      }
      NoFinale(o, s);
      assert s.log[|s.log|..] == [];
    } else {
      EndSoFar(o, s, events);
    }
  }

  lemma {:induction false} NothingPending(o: Options, s: State, events: seq<Event>)
    requires s.timers == map[] && events != [] && OnlyTimers(events)
    ensures !Run(o, s, events, true)
    decreases |events|
  {
    hide Step;
    if |events| > 1 {
      NothingPending(o, s, events[..|events| - 1]);
    }
  }

  lemma NoFinale(o: Options, s: State)
    requires Inv(o, s) && s.timers == map[]
    ensures Finale(o, s, [])
  {
  }

  /** With trailing on and leading off the last call is answered once, `wait` after it or when the
      long timer runs out, whichever is first. */
  lemma LastCallIsAnswered(o: Options, s: State, now: int, events: seq<Event>)
    requires Proper(o) && Inv(o, s) && o.trailing && !o.leading && !Throttling(o) && Enabled(s, Call(now), true)
    requires var s1 := Step(o, s, Call(now));
      s1.log == s.log && OnlyTimers(events) && Run(o, s1, events, true) && After(o, s1, events).timers == map[]
    ensures var due := LongDue(Step(o, s, Call(now)));
      After(o, Step(o, s, Call(now)), events).log ==
        s.log + [Invocation(if due.Some? && due.value < now + o.wait then due.value else now + o.wait, Some(|s.calls|))]
  {
    hide After, Run, Step, Inv, Enabled, OnlyTimers;
    var s1 := Step(o, s, Call(now));
    StepKeepsInv(o, s, Call(now), true);
    QuietEnd(o, s1, events);
    ThatOfTheCall(o, s, now, After(o, s1, events).log[|s1.log|..]);
    assert After(o, s1, events).log == s1.log + After(o, s1, events).log[|s1.log|..];
  }

  lemma ThatOfTheCall(o: Options, s: State, now: int, more: seq<Invocation>)
    requires Inv(o, s) && o.trailing && !o.leading && !Throttling(o) && Enabled(s, Call(now), true)
    requires var s1 := Step(o, s, Call(now)); s1.log == s.log && Finale(o, s1, more)
    ensures var due := LongDue(Step(o, s, Call(now)));
      more == [Invocation(if due.Some? && due.value < now + o.wait then due.value else now + o.wait, Some(|s.calls|))]
  {
    QuietCall(o, s, now);
    hide Inv, OnCall, LongDue;
  }

  lemma QuietCall(o: Options, s: State, now: int)
    requires Inv(o, s) && o.trailing && !o.leading && !Throttling(o) && s.clock <= now
    requires OnCall(o, s, now).log == s.log
    ensures var s1 := OnCall(o, s, now);
      s1.timeoutId.Some? && s1.stamp == now && s1.args == Some(|s.calls|) && s1.trailingCall
  {
    hide SetTimeout, SetMaxTimeout, ClearTimeout, ClearMaxTimeout, CallMax;
    var s0 := Noted(o, s, now);
    if o.maxWait.Some? {
      MaxInvokesOrWaits(o, s0, now);
      MaxKeepsNotes(o, s0, now);
    }
    var s1 := if o.maxWait.Some? then CallMax(o, s0, now).0 else s0;
    TimersKeepRest(s1, now + o.wait);
  }

  lemma MaxKeepsNotes(o: Options, s: State, now: int)
    requires o.maxWait.Some?
    ensures var s' := CallMax(o, s, now).0; s'.stamp == s.stamp && s'.args == s.args && s'.trailingCall == s.trailingCall
  {
  }

  /** After an invocation with nothing pending the arguments are given up, so that they can be
      collected; as long as a timer is pending they are kept. */
  lemma ArgumentsAreGivenUp(o: Options, s: State, e: Event, prompt: bool)
    requires Proper(o) && Inv(o, s) && Enabled(s, e, prompt)
    ensures var s' := Step(o, s, e);
      && (|s'.log| > |s.log| && s'.timers == map[] ==> s'.args.None?)
      && (s'.timers != map[] ==> s'.args == Some(|s'.calls| - 1))
  {
    StepKeepsInv(o, s, e, prompt);
    var s' := Step(o, s, e);
    if |s'.log| > |s.log| && s'.timers == map[] {
      if e.Call? {
        CallGivesUp(o, s, e.time);
        hide OnCall;
      }
      NonePending(o, s');
    }
  }

  lemma NonePending(o: Options, s: State)
    requires Inv(o, s) && s.timers == map[]
    ensures s.timeoutId.None? && s.maxTimeoutId.None?
  {
    assert forall id: Option<nat> | id.Some? :: id.value in Ids(id);
    assert forall id | id in Ids(s.timeoutId) || id in Ids(s.maxTimeoutId) :: id in s.timers.Keys;
  }

  lemma CallGivesUp(o: Options, s: State, now: int)
    ensures var s' := OnCall(o, s, now);
      |s'.log| > |s.log| && s'.timeoutId.None? && s'.maxTimeoutId.None? ==> s'.args.None?
  {
    hide SetTimeout, ClearTimeout, CallMax;
    var s0 := Noted(o, s, now);
    if o.maxWait.Some? {
      CallMaxInvokes(o, s0, now);
    }
    var s1 := if o.maxWait.Some? then CallMax(o, s0, now).0 else s0;
    TimersKeepRest(s1, now + o.wait);
  }

  lemma CallMaxInvokes(o: Options, s: State, now: int)
    requires o.maxWait.Some?
    ensures !CallMax(o, s, now).1 ==> CallMax(o, s, now).0.log == s.log
  {
  }

  // ---- Invocations that `maxWait` forces ----

  predicate LastIsNoted(s: State) {
    s.log != [] ==> s.log[|s.log| - 1].time <= s.lastCalled
  }

  /** The step invokes only as `maxWait` allows, or when the short timer has run out. */
  predicate Paces(o: Options, s: State, e: Event)
    requires o.maxWait.Some?
  {
    var s' := Step(o, s, e);
    && LastIsNoted(s')
    && (s'.log == s.log
        || (|s'.log| == |s.log| + 1 && s'.log[..|s.log|] == s.log
            && (|| s.log == []
                || s.log[|s.log| - 1].time + o.maxWait.value <= s'.log[|s.log|].time
                || (e.Fire? && e.id in s.timers && s.timers[e.id].kind == Delayed))))
  }

  lemma CallPaces(o: Options, s: State, now: int)
    requires o.maxWait.Some? && Inv(o, s) && s.clock <= now && LastIsNoted(s)
    ensures Paces(o, s, Call(now))
  {
    CallInvokesOrWaits(o, s, now);
    hide OnCall;
  }

  lemma FirePaces(o: Options, s: State, id: nat, now: int, prompt: bool)
    requires o.maxWait.Some? && Inv(o, s) && Enabled(s, Fire(id, now), prompt) && LastIsNoted(s)
    ensures Paces(o, s, Fire(id, now))
  {
    if s.timers[id].kind == MaxDelayed {
      assert s.maxTimeoutId == Some(id) && s.lastCalled + o.maxWait.value <= now;
    }
    hide Inv;
  }

  lemma {:induction false} RunPaces(o: Options, clock: nat, events: seq<Event>, prompt: bool)
    requires o.maxWait.Some? && Proper(o) && Run(o, Initial(clock), events, prompt)
    ensures LastIsNoted(After(o, Initial(clock), events))
    decreases |events|, 0
  {
    hide Step, Enabled, Inv, Paces, LastIsNoted;
    if events == [] {
      NothingNoted(clock);
    } else {
      MaxWaitPaces(o, clock, events[..|events| - 1], events[|events| - 1], prompt);
      PacesIs(o, After(o, Initial(clock), events[..|events| - 1]), events[|events| - 1]);
    }
  }

  lemma NothingNoted(clock: nat)
    ensures LastIsNoted(Initial(clock))
  {
  }

  lemma PacesIs(o: Options, s: State, e: Event)
    requires o.maxWait.Some? && Paces(o, s, e)
    ensures LastIsNoted(Step(o, s, e))
  {
  }

  /** In every run with a `maxWait` an invocation comes at least that long after the one before,
      unless it is that of the short timer. */
  lemma {:induction false} MaxWaitPaces(o: Options, clock: nat, events: seq<Event>, e: Event, prompt: bool)
    requires o.maxWait.Some? && Proper(o) && Run(o, Initial(clock), events, prompt)
    requires Enabled(After(o, Initial(clock), events), e, prompt)
    ensures Paces(o, After(o, Initial(clock), events), e)
    decreases |events|, 1
  {
    var s := After(o, Initial(clock), events);
    InitialInv(o, clock);
    RunKeepsInv(o, Initial(clock), events, prompt);
    RunPaces(o, clock, events, prompt);
    match e
    case Call(time) => CallPaces(o, s, time);
    case Fire(id, time) => FirePaces(o, s, id, time, prompt);
  }
}
