/** The closure that `debounce` returns, with the page's timers for it. */
module Debounced {
  import opened Optional
  import opened Debounce

  class Wrapper {
    const o: Options
    var args: Option<nat>
    var stamp: int
    var lastCalled: int
    var trailingCall: bool
    var timeoutId: Option<nat>
    var maxTimeoutId: Option<nat>
    var timers: map<nat, Timer>
    var nextId: nat
    var clock: int
    var calls: seq<int>
    var log: seq<Invocation>

    function Current(): State
      reads this
    {
      State(args, stamp, lastCalled, trailingCall, timeoutId, maxTimeoutId, timers, nextId, clock, calls, log)
    }

    /** `debounce`, with `options` taken apart. */
    constructor (wait: int, leading: bool, trailing: bool, maxWait: Option<int>, now: nat)
      ensures o == DebounceOptions(wait, leading, trailing, maxWait) && Proper(o)
      ensures Current() == Initial(now) && Inv(o, Current())
    {
      o := DebounceOptions(wait, leading, trailing, maxWait);
      args, stamp, lastCalled, trailingCall, timeoutId, maxTimeoutId := None, 0, 0, false, None, None;
      timers, nextId, clock, calls, log := map[], 1, now, [], [];
      new;
      InitialInv(o, now);
    }

    /** `setTimeout` */
    method SetTimer(kind: Kind, due: int) returns (id: nat)
      modifies this`timers, this`nextId
      ensures id == old(nextId) && nextId == id + 1 && timers == old(timers)[id := Timer(kind, due)]
    {
      id := nextId;
      timers := timers[id := Timer(kind, due)];
      nextId := nextId + 1;
    }

    /** `func.apply( thisArg, args )` */
    method Invoke(now: int)
      modifies this`log
      ensures log == old(log) + [Invocation(now, args)]
    {
      log := log + [Invocation(now, args)];
    }

    /** The part of a call that looks at `maxWait`. */
    method AskMaxWait(now: int) returns (isCalled: bool)
      requires o.maxWait.Some? && stamp == now
      modifies this
      ensures (Current(), isCalled) == CallMax(o, old(Current()), now)
    {
      if maxTimeoutId.None? && !o.leading {
        lastCalled := stamp;
      }
      var remaining := o.maxWait.value - (stamp - lastCalled);
      isCalled := remaining <= 0;
      if isCalled {
        if maxTimeoutId.Some? {
          timers := timers - {maxTimeoutId.value};
          maxTimeoutId := None;
        }
        lastCalled := stamp;
        Invoke(now);
      } else if maxTimeoutId.None? {
        var id := SetTimer(MaxDelayed, now + remaining);
        maxTimeoutId := Some(id);
      }
    }

    /** The function returned to the user. */
    method Call(now: int)
      modifies this
      ensures Current() == OnCall(o, old(Current()), now)
    {
      hide CallMax, CallWait;
      args := Some(|calls|);
      calls := calls + [now];
      clock := now;
      stamp := now;
      trailingCall := o.trailing && (timeoutId.Some? || !o.leading);
      var leadingCall, isCalled := false, false;
      assert Current() == Noted(o, old(Current()), now);
      if o.maxWait.None? {
        leadingCall := o.leading && timeoutId.None?;
      } else {
        isCalled := AskMaxWait(now);
      }
      AskWait(now, isCalled);
      if leadingCall {
        isCalled := true;
        Invoke(now);
      }
      if isCalled && timeoutId.None? && maxTimeoutId.None? {
        args := None;
      }
    }

    /** The part of a call that looks at the short timer. */
    method AskWait(now: int, isCalled: bool)
      modifies `timeoutId, `timers, `nextId
      ensures Current() == CallWait(o, old(Current()), now, isCalled)
    {
      if isCalled && timeoutId.Some? {
        timers := timers - {timeoutId.value};
        timeoutId := None;
      } else if timeoutId.None? && o.maxWait != Some(o.wait) {
        var id := SetTimer(Delayed, now + o.wait);
        timeoutId := Some(id);
      }
    }

    /** `delayed` */
    method DelayedTimer(now: int)
      modifies this
      ensures Current() == OnDelayed(o, old(Current()), now)
    {
      var remaining := o.wait - (now - stamp);
      if remaining <= 0 {
        if maxTimeoutId.Some? {
          timers := timers - {maxTimeoutId.value};
        }
        var isCalled := trailingCall;
        maxTimeoutId, timeoutId, trailingCall := None, None, false;
        if isCalled {
          lastCalled := now;
          Invoke(now);
          if timeoutId.None? && maxTimeoutId.None? {
            args := None;
          }
        }
      } else {
        var id := SetTimer(Delayed, now + remaining);
        timeoutId := Some(id);
      }
    }

    /** `maxDelayed` */
    method MaxDelayedTimer(now: int)
      modifies this
      ensures Current() == OnMaxDelayed(o, old(Current()), now)
    {
      if timeoutId.Some? {
        timers := timers - {timeoutId.value};
      }
      maxTimeoutId, timeoutId, trailingCall := None, None, false;
      if o.trailing || o.maxWait != Some(o.wait) {
        lastCalled := now;
        Invoke(now);
        if timeoutId.None? && maxTimeoutId.None? {
          args := None;
        }
      }
    }

    /** The page runs the callback of a pending timer. */
    method Fired(id: nat, now: int)
      requires id in timers
      modifies this
      ensures Current() == Step(o, old(Current()), Fire(id, now))
    {
      var kind := timers[id].kind;
      timers := timers - {id};
      clock := now;
      if kind == Delayed {
        DelayedTimer(now);
      } else {
        MaxDelayedTimer(now);
      }
    }
  }
}
