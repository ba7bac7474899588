/** `jQuery.when` with two or more arguments: a count of the subordinates still to come, and
    the values they resolve with, slot by slot. */
module When {
  import opened Lists
  import opened Optional

  /** What a slot of `resolveValues` holds: an argument as given, or what a callback got. */
  datatype Value = Given(arg: nat) | Undefined | One(value: nat) | Several(values: seq<nat>)

  /** An argument of `when`.  A promise may already be settled when it is looked at. */
  datatype Argument =
    | Plain(arg: nat)
    | Waiting(arg: nat)
    | AlreadyResolved(arg: nat, context: nat, args: seq<nat>)
    | AlreadyRejected(arg: nat, reason: nat)

  /** A call on the master: `resolveWith` with contexts and values, or `reject`. */
  datatype Request = Resolve(contexts: seq<Option<nat>>, values: seq<Value>) | Reject(reason: nat)

  /** `arguments.length > 1 ? slice( arguments ) : value` */
  function Collect(args: seq<nat>): Value {
    if |args| > 1 then Several(args) else if |args| == 1 then One(args[0]) else Undefined
  }

  function Rejections(reasons: seq<nat>): (r: seq<Request>)
    ensures |r| == |reasons| && forall i | 0 <= i < |reasons| :: r[i] == Reject(reasons[i])
  {
    seq(|reasons|, i requires 0 <= i < |reasons| => Reject(reasons[i]))
  }

  /** A deferred obeys the first call that settles it. */
  function Outcome(requests: seq<Request>): Option<Request> {
    if requests == [] then None else Some(requests[0])
  }

  /** What one argument contributes: a slot of `resolveContexts` and one of `resolveValues`. */
  datatype Slot = Slot(context: Option<nat>, value: Value)

  /** What is known of a slot when the argument is looked at. */
  function SlotOf(a: Argument): Option<Slot> {
    match a
    case Plain(arg) => Some(Slot(None, Given(arg)))
    case AlreadyResolved(_, context, args) => Some(Slot(Some(context), Collect(args)))
    case Waiting(_) => None
    case AlreadyRejected(_, _) => None
  }

  /** The reasons of the arguments already rejected, in their order. */
  function RejectedAmong(arguments: seq<Argument>): seq<nat> {
    if arguments == [] then []
    else
      var last := arguments[|arguments| - 1];
      RejectedAmong(arguments[..|arguments| - 1]) + (if last.AlreadyRejected? then [last.reason] else [])
  }

  ghost function Upto(n: nat): (r: set<nat>)
    ensures |r| == n && forall i: nat :: i in r <==> i < n
  {
    if n == 0 then {}
    else
      var before := Upto(n - 1);
      assert n - 1 !in before;
      before + {n - 1}
  }

  /** One open argument gets its value. */
  lemma OneFewer(n: nat, open: set<nat>, results: map<nat, Slot>, i: nat, v: Slot)
    requires i in open && i < n && results.Keys == Upto(n) - open
    ensures |open - {i}| == |open| - 1
    ensures results[i := v].Keys == Upto(n) - (open - {i})
  {
  }

  lemma NoRejections()
    ensures Rejections([]) == []
  {
  }

  class Joint {
    const n: nat
    var remaining: int
    var resolveValues: seq<Value>
    var resolveContexts: seq<Option<nat>>
    /** The calls on the master, in order. */
    var requests: seq<Request>

    /** The arguments that have neither been taken as plain nor resolved. */
    ghost var open: set<nat>
    /** What each settled slot must hold: the value given, or the context and value resolved with. */
    ghost var results: map<nat, Slot>
    /** Rejected arguments and their reasons, in the order of rejection. */
    ghost var failed: set<nat>
    ghost var reasons: seq<nat>
    /** The loop over the arguments is over. */
    ghost var started: bool

    /** The slots are right, and the count is that of the open arguments. */
    ghost predicate SlotsOk()
      reads this
    {
      && n >= 2 && |resolveValues| == n && |resolveContexts| == n
      && (forall i | i in open :: i < n)
      && remaining == |open|
      && results.Keys == Upto(n) - open
      && forall i | i in results :: i < n && Slot(resolveContexts[i], resolveValues[i]) == results[i]
    }

    /** The master is asked to resolve only when no argument is open. */
    ghost predicate RequestsOk()
      reads this
    {
      && failed <= open && (failed == {} <==> reasons == [])
      && if open != {} then requests == Rejections(reasons)
         else (started ==> requests != []) && forall r | r in requests :: r == Resolve(resolveContexts, resolveValues)
    }

    ghost predicate Valid()
      reads this
    {
      SlotsOk() && RequestsOk()
    }

    /** `when( ... )`, up to the test behind its loop. */
    constructor (arguments: seq<Argument>)
      requires |arguments| >= 2
      ensures Valid() && started && n == |arguments|
      ensures forall i | 0 <= i < n :: i in open <==> SlotOf(arguments[i]).None?
      ensures forall i | 0 <= i < n && i !in open :: i in results && results[i] == SlotOf(arguments[i]).value
      ensures forall i | 0 <= i < n :: i in failed <==> arguments[i].AlreadyRejected?
      ensures reasons == RejectedAmong(arguments)
    {
      n := |arguments|;
      remaining := |arguments|;
      resolveValues := seq(|arguments|, i requires 0 <= i < |arguments| => Given(arguments[i].arg));
      resolveContexts := seq(|arguments|, _ => None);
      requests := [];
      open := Upto(|arguments|);
      results, failed, reasons, started := map[], {}, [], false;
      new;
      AttachAll(arguments);
      ResolveIfComplete();
    }

    /** Slot `i` has the argument itself, and no context. */
    ghost predicate Untouched(i: nat, arg: nat)
      requires i < |resolveValues| && i < |resolveContexts|
      reads this
    {
      resolveValues[i] == Given(arg) && resolveContexts[i].None?
    }

    /** The first `upto` arguments have been looked at. */
    ghost predicate Attached(arguments: seq<Argument>, upto: nat)
      reads this
    {
      && |arguments| == n && upto <= n && |resolveValues| == |resolveContexts| == n
      && (forall k | upto <= k < n :: k in open && k !in failed && Untouched(k, arguments[k].arg))
      && (forall k | 0 <= k < upto :: k in open <==> SlotOf(arguments[k]).None?)
      && (forall k | 0 <= k < upto && k !in open :: k in results && results[k] == SlotOf(arguments[k]).value)
      && (forall k | 0 <= k < upto :: k in failed <==> arguments[k].AlreadyRejected?)
      && reasons == RejectedAmong(arguments[..upto])
    }

    /** The loop over the arguments. */
    method AttachAll(arguments: seq<Argument>)
      requires Valid() && !started && |arguments| == n && failed == {} && reasons == []
      requires forall k | 0 <= k < n :: k in open && resolveValues[k] == Given(arguments[k].arg) && resolveContexts[k].None?
      modifies this
      ensures Valid() && !started
      ensures forall k | 0 <= k < n :: k in open <==> SlotOf(arguments[k]).None?
      ensures forall k | 0 <= k < n && k !in open :: k in results && results[k] == SlotOf(arguments[k]).value
      ensures forall k | 0 <= k < n :: k in failed <==> arguments[k].AlreadyRejected?
      ensures reasons == RejectedAmong(arguments)
    {
      SlotsAreThere();
      assert Attached(arguments, 0);
      hide Valid;
      var i := 0;
      while i < n
        invariant 0 <= i <= n && Valid() && !started && Attached(arguments, i)
      {
        AttachNext(arguments, i);
        i := i + 1;
      }
      assert arguments[..n] == arguments;
    }

    /** One turn of the loop. */
    method AttachNext(arguments: seq<Argument>, i: nat)
      requires Valid() && !started && Attached(arguments, i) && i < n
      modifies this
      ensures Valid() && !started && Attached(arguments, i + 1)
    {
      hide Valid;
      Attach(i, arguments[i]);
      assert arguments[..i + 1][..i] == arguments[..i];
    }

    /** `if ( !remaining )` behind the loop. */
    method ResolveIfComplete()
      requires Valid() && !started
      modifies this`requests, this`started
      ensures Valid() && started
    {
      if remaining == 0 {
        requests := requests + [Resolve(resolveContexts, resolveValues)];
      }
      started := true;
    }

    lemma SlotsAreThere()
      requires Valid()
      ensures |resolveValues| == |resolveContexts| == n
    {
    }

    /** The loop body: listeners on a promise, anything else is taken as resolved. */
    method Attach(i: nat, a: Argument)
      requires Valid() && !started && i in open && i !in failed
      requires i < |resolveValues| && i < |resolveContexts| && Untouched(i, a.arg)
      modifies this
      ensures Valid() && !started && failed == (if a.AlreadyRejected? then old(failed) + {i} else old(failed))
      ensures reasons == if a.AlreadyRejected? then old(reasons) + [a.reason] else old(reasons)
      ensures open == if SlotOf(a).Some? then old(open) - {i} else old(open)
      ensures results == if SlotOf(a).Some? then old(results)[i := SlotOf(a).value] else old(results)
      ensures |resolveValues| == |old(resolveValues)| == |resolveContexts| == |old(resolveContexts)| == n
      ensures forall k | 0 <= k < n && k != i ::
                resolveValues[k] == old(resolveValues)[k] && resolveContexts[k] == old(resolveContexts)[k]
    {
      SlotsAreThere();
      hide Valid;
      match a {
        case Plain(arg) =>
          CountPlain(i, arg);
        case Waiting(_) =>
        case AlreadyResolved(_, context, args) =>
          UpdateValue(i, context, args);
        case AlreadyRejected(_, reason) =>
          Fail(i, reason);
      }
    }

    /** `--remaining` for a plain value, which is in its slot already. */
    method CountPlain(ghost i: nat, ghost arg: nat)
      requires Valid() && !started && i in open && i !in failed
      requires i < |resolveValues| && i < |resolveContexts| && Untouched(i, arg)
      modifies `remaining, `open, `results
      ensures Valid() && open == old(open) - {i} && results == old(results)[i := Slot(None, Given(arg))]
    {
      hide Upto, Rejections;
      NoRejections();
      OneFewer(n, open, results, i, Slot(None, Given(arg)));
      remaining := remaining - 1;
      open := open - {i};
      results := results[i := Slot(None, Given(arg))];
    }

    /** The function `updateFunc` makes for the done list of argument `i`. */
    method UpdateValue(i: nat, context: nat, args: seq<nat>)
      requires Valid() && i in open && i !in failed
      modifies `remaining, `resolveValues, `resolveContexts, `requests, `open, `results
      ensures Valid() && open == old(open) - {i}
      ensures results == old(results)[i := Slot(Some(context), Collect(args))] && started == old(started)
      ensures |resolveValues| == |old(resolveValues)| == |resolveContexts| == |old(resolveContexts)| == n
      ensures forall k | 0 <= k < n && k != i ::
                resolveValues[k] == old(resolveValues)[k] && resolveContexts[k] == old(resolveContexts)[k]
      ensures open != {} ==> requests == old(requests)
      ensures open == {} ==> requests == old(requests) + [Resolve(resolveContexts, resolveValues)]
    {
      hide Upto, Collect, Rejections;
      NoRejections();
      FillSlot(i, context, Collect(args));
      hide SlotsOk;
      if remaining == 0 {
        requests := requests + [Resolve(resolveContexts, resolveValues)];
      }
    }

    /** The assignments to the slot, and the count. */
    method FillSlot(i: nat, context: nat, value: Value)
      requires SlotsOk() && i in open
      modifies `remaining, `resolveValues, `resolveContexts, `open, `results
      ensures SlotsOk() && open == old(open) - {i} && results == old(results)[i := Slot(Some(context), value)]
      ensures |resolveValues| == |old(resolveValues)| == |resolveContexts| == |old(resolveContexts)| == n
      ensures remaining == 0 <==> open == {}
      ensures forall k | 0 <= k < n && k != i ::
                resolveValues[k] == old(resolveValues)[k] && resolveContexts[k] == old(resolveContexts)[k]
    {
      hide Upto;
      OneFewer(n, open, results, i, Slot(Some(context), value));
      resolveContexts := resolveContexts[i := Some(context)];
      resolveValues := resolveValues[i := value];
      remaining := remaining - 1;
      open := open - {i};
      results := results[i := Slot(Some(context), value)];
    }

    /** `deferred.reject`, put on the fail list of argument `i`. */
    method Fail(ghost i: nat, reason: nat)
      requires Valid() && i in open && i !in failed
      modifies this`requests, this`failed, this`reasons
      ensures Valid() && failed == old(failed) + {i} && reasons == old(reasons) + [reason]
    {
      requests := requests + [Reject(reason)];
      failed := failed + {i};
      reasons := reasons + [reason];
    }
  }

  /** The master is resolved just when every argument is plain or resolved, with value `i` in
      slot `i` whatever the order; it is rejected with the first rejection otherwise, and left
      pending while arguments are missing and none has been rejected. */
  lemma MasterOutcome(j: Joint)
    requires j.Valid() && j.started
    ensures match Outcome(j.requests)
      case None => j.open != {} && j.reasons == []
      case Some(Resolve(contexts, values)) =>
        j.open == {} && j.reasons == [] && |values| == |contexts| == j.n &&
        forall i | 0 <= i < j.n :: i in j.results && Slot(contexts[i], values[i]) == j.results[i]
      case Some(Reject(reason)) => j.open != {} && j.reasons != [] && reason == j.reasons[0]
  {
    if j.open == {} {
      assert j.failed == {} && j.requests[0] in j.requests;
    }
  }

  // ---- Runs ----

  /** An argument that was waiting settles. */
  datatype Completion = Resolved(i: nat, context: nat, args: seq<nat>) | Rejected(i: nat, reason: nat)

  /** What a deferred guarantees: each waiting argument settles once at most, one way. */
  predicate SettleOnce(arguments: seq<Argument>, completions: seq<Completion>) {
    && (forall c | 0 <= c < |completions| :: completions[c].i < |arguments| && arguments[completions[c].i].Waiting?)
    && (forall c, d | 0 <= c < d < |completions| :: completions[c].i != completions[d].i)
  }

  function RejectedIn(completions: seq<Completion>): seq<nat> {
    if completions == [] then []
    else
      var last := completions[|completions| - 1];
      RejectedIn(completions[..|completions| - 1]) + (if last.Rejected? then [last.reason] else [])
  }

  /** What an argument resolves with in the end, if it does. */
  function ValueOf(arguments: seq<Argument>, completions: seq<Completion>, i: nat): Option<Slot>
    requires i < |arguments|
  {
    if SlotOf(arguments[i]).Some? then SlotOf(arguments[i])
    else if completions == [] then None
    else
      var last := completions[|completions| - 1];
      if last.Resolved? && last.i == i then Some(Slot(Some(last.context), Collect(last.args)))
      else ValueOf(arguments, completions[..|completions| - 1], i)
  }

  /** Open arguments, values, rejections and reasons are those of the arguments and of the
      completions so far. */
  ghost predicate Tells(open: set<nat>, results: map<nat, Slot>, failed: set<nat>, reasons: seq<nat>,
                        arguments: seq<Argument>, completions: seq<Completion>)
  {
    && reasons == RejectedAmong(arguments) + RejectedIn(completions)
    && (forall i | 0 <= i < |arguments| :: i in open <==> ValueOf(arguments, completions, i).None?)
    && (forall i | 0 <= i < |arguments| && i !in open :: i in results && Some(results[i]) == ValueOf(arguments, completions, i))
    && (forall i | 0 <= i < |arguments| :: i in failed <==> arguments[i].AlreadyRejected? || HasRejection(completions, i))
  }

  ghost predicate Reflects(j: Joint, arguments: seq<Argument>, completions: seq<Completion>)
    reads j
  {
    j.n == |arguments| && Tells(j.open, j.results, j.failed, j.reasons, arguments, completions)
  }

  predicate HasRejection(completions: seq<Completion>, i: nat) {
    exists c :: 0 <= c < |completions| && completions[c].Rejected? && completions[c].i == i
  }

  /** A waiting argument that has not settled has neither value nor rejection. */
  lemma {:induction false} NotYetSettled(arguments: seq<Argument>, completions: seq<Completion>, i: nat)
    requires i < |arguments| && arguments[i].Waiting? && forall c | 0 <= c < |completions| :: completions[c].i != i
    ensures ValueOf(arguments, completions, i).None? && !HasRejection(completions, i)
  {
    if completions != [] {
      NotYetSettled(arguments, completions[..|completions| - 1], i);
    }
  }

  /** One more completion changes what is known of its own argument only. */
  lemma OneMoreSettled(arguments: seq<Argument>, before: seq<Completion>, last: Completion, i: nat)
    requires i < |arguments|
    ensures ValueOf(arguments, before + [last], i) ==
      if SlotOf(arguments[i]).None? && last.Resolved? && last.i == i then Some(Slot(Some(last.context), Collect(last.args)))
      else ValueOf(arguments, before, i)
    ensures HasRejection(before + [last], i) <==> HasRejection(before, i) || (last.Rejected? && last.i == i)
    ensures RejectedIn(before + [last]) == RejectedIn(before) + (if last.Rejected? then [last.reason] else [])
  {
    var longer := before + [last];
    assert longer[..|longer| - 1] == before && longer[|before|] == last;
    assert forall c | 0 <= c < |before| :: longer[c] == before[c];
  }

  lemma TellsResolved(open: set<nat>, results: map<nat, Slot>, failed: set<nat>, reasons: seq<nat>,
                      arguments: seq<Argument>, before: seq<Completion>, last: Completion)
    requires Tells(open, results, failed, reasons, arguments, before)
    requires last.Resolved? && last.i < |arguments| && arguments[last.i].Waiting?
    ensures Tells(open - {last.i}, results[last.i := Slot(Some(last.context), Collect(last.args))], failed, reasons,
                  arguments, before + [last])
  {
    hide ValueOf, HasRejection, RejectedAmong, RejectedIn, Collect;
    OneMoreSettled(arguments, before, last, last.i);
    forall i | 0 <= i < |arguments|
      ensures ValueOf(arguments, before + [last], i) ==
              if i == last.i then Some(Slot(Some(last.context), Collect(last.args))) else ValueOf(arguments, before, i)
      ensures HasRejection(before + [last], i) <==> HasRejection(before, i)
    {
      OneMoreSettled(arguments, before, last, i);
    }
  }

  lemma TellsRejected(open: set<nat>, results: map<nat, Slot>, failed: set<nat>, reasons: seq<nat>,
                      arguments: seq<Argument>, before: seq<Completion>, last: Completion)
    requires Tells(open, results, failed, reasons, arguments, before)
    requires last.Rejected? && last.i < |arguments| && arguments[last.i].Waiting?
    ensures Tells(open, results, failed + {last.i}, reasons + [last.reason], arguments, before + [last])
  {
    hide ValueOf, HasRejection, RejectedAmong, RejectedIn, Collect;
    OneMoreSettled(arguments, before, last, last.i);
    ConcatAssociates(RejectedAmong(arguments), RejectedIn(before), [last.reason]);
    forall i | 0 <= i < |arguments|
      ensures ValueOf(arguments, before + [last], i) == ValueOf(arguments, before, i)
      ensures HasRejection(before + [last], i) <==> HasRejection(before, i) || i == last.i
    {
      OneMoreSettled(arguments, before, last, i);
    }
  }

  /** One argument settles. */
  method SettleNext(j: Joint, ghost arguments: seq<Argument>, ghost before: seq<Completion>, last: Completion)
    requires j.Valid() && j.started && Reflects(j, arguments, before)
    requires last.i < |arguments| && arguments[last.i].Waiting? && forall c | 0 <= c < |before| :: before[c].i != last.i
    modifies j
    ensures j.Valid() && j.started && Reflects(j, arguments, before + [last])
  {
    NotYetSettled(arguments, before, last.i);
    assert last.i in j.open && last.i !in j.failed;
    hide Joint.Valid, Tells;
    match last {
      case Resolved(i, context, args) =>
        TellsResolved(j.open, j.results, j.failed, j.reasons, arguments, before, last);
        j.UpdateValue(i, context, args);
      case Rejected(i, reason) =>
        TellsRejected(j.open, j.results, j.failed, j.reasons, arguments, before, last);
        j.Fail(i, reason);
    }
  }

  /** What `updateFunc` stores of the arguments of a resolution. */
  predicate Holds(value: Value, args: seq<nat>) {
    && (|args| == 0 ==> value == Undefined)
    && (|args| == 1 ==> value == One(args[0]))
    && (|args| >= 2 ==> value == Several(args))
  }

  /** The slots of an argument: a plain one is given as it is and without a context, a promise
      gives the context and the arguments it resolved with. */
  predicate Contributes(arguments: seq<Argument>, completions: seq<Completion>, i: nat, context: Option<nat>, value: Value)
    requires i < |arguments|
  {
    match arguments[i]
    case Plain(arg) => context == None && value == Given(arg)
    case AlreadyResolved(_, from, args) => context == Some(from) && Holds(value, args)
    case AlreadyRejected(_, _) => false
    case Waiting(_) =>
      exists c :: 0 <= c < |completions| && completions[c].Resolved? && completions[c].i == i
               && context == Some(completions[c].context) && Holds(value, completions[c].args)
  }

  /** Rejected with the first rejection if there is one, resolved with all contexts and values in
      their slots if all arguments have one, and pending otherwise, with one still waiting. */
  predicate MasterIs(outcome: Option<Request>, arguments: seq<Argument>, completions: seq<Completion>) {
    var reasons := RejectedAmong(arguments) + RejectedIn(completions);
    match outcome
    case None =>
      reasons == [] && exists i :: 0 <= i < |arguments| && arguments[i].Waiting? && IsMissing(completions, i)
    case Some(Resolve(contexts, values)) =>
      && reasons == [] && |values| == |contexts| == |arguments|
      && forall i | 0 <= i < |arguments| :: Contributes(arguments, completions, i, contexts[i], values[i])
    case Some(Reject(reason)) => reasons != [] && reason == reasons[0]
  }

  predicate IsMissing(completions: seq<Completion>, i: nat) {
    forall c | 0 <= c < |completions| :: completions[c].i != i
  }

  lemma TellsAtFirst(j: Joint, arguments: seq<Argument>)
    requires j.n == |arguments| && j.reasons == RejectedAmong(arguments)
    requires forall i | 0 <= i < j.n :: i in j.open <==> SlotOf(arguments[i]).None?
    requires forall i | 0 <= i < j.n && i !in j.open :: i in j.results && j.results[i] == SlotOf(arguments[i]).value
    requires forall i | 0 <= i < j.n :: i in j.failed <==> arguments[i].AlreadyRejected?
    ensures Reflects(j, arguments, [])
  {
    hide RejectedAmong;
  }

  method CallWhen(arguments: seq<Argument>) returns (j: Joint)
    requires |arguments| >= 2
    ensures fresh(j) && j.Valid() && j.started && Reflects(j, arguments, [])
  {
    hide Reflects, Joint.Valid, RejectedAmong;
    j := new Joint(arguments);
    TellsAtFirst(j, arguments);
  }

  lemma SettlesNext(arguments: seq<Argument>, completions: seq<Completion>, c: nat)
    requires SettleOnce(arguments, completions) && c < |completions|
    ensures var last, before := completions[c], completions[..c];
      && before + [last] == completions[..c + 1]
      && last.i < |arguments| && arguments[last.i].Waiting? && forall d | 0 <= d < |before| :: before[d].i != last.i
  {
  }

  /** `when` is called and its waiting arguments settle, in any order. */
  method RunWhen(arguments: seq<Argument>, completions: seq<Completion>) returns (j: Joint)
    requires |arguments| >= 2 && SettleOnce(arguments, completions)
    ensures fresh(j) && j.Valid() && j.started && Reflects(j, arguments, completions)
    ensures MasterIs(Outcome(j.requests), arguments, completions)
  {
    hide Reflects, Joint.Valid, Outcome, SlotOf, MasterIs, SettleOnce;
    j := CallWhen(arguments);
    assert completions[..0] == [];
    for c := 0 to |completions|
      invariant j.Valid() && j.started && fresh(j) && Reflects(j, arguments, completions[..c])
    {
      SettlesNext(arguments, completions, c);
      SettleNext(j, arguments, completions[..c], completions[c]);
    }
    assert completions[..|completions|] == completions;
    RunOutcome(j, arguments, completions);
  }

  lemma RunOutcome(j: Joint, arguments: seq<Argument>, completions: seq<Completion>)
    requires j.Valid() && j.started && Reflects(j, arguments, completions) && SettleOnce(arguments, completions)
    ensures MasterIs(Outcome(j.requests), arguments, completions)
  {
    hide ValueOf, HasRejection, RejectedAmong, RejectedIn, Contributes, IsMissing, SettleOnce;
    MasterOutcome(j);
    forall i | 0 <= i < j.n && i !in j.open
      ensures i in j.results && Contributes(arguments, completions, i, j.results[i].context, j.results[i].value)
    {
      ValueContributes(arguments, completions, i);
    }
    if j.open != {} && j.reasons == [] {
      var i :| i in j.open;
      assert i < |arguments| && ValueOf(arguments, completions, i).None?;
      assert i !in j.failed;
      NoValueIsMissing(arguments, completions, i);
    }
  }

  lemma {:induction false} ValueContributes(arguments: seq<Argument>, completions: seq<Completion>, i: nat)
    requires i < |arguments| && SettleOnce(arguments, completions) && ValueOf(arguments, completions, i).Some?
    ensures var slot := ValueOf(arguments, completions, i).value;
      Contributes(arguments, completions, i, slot.context, slot.value)
    decreases |completions|
  {
    if SlotOf(arguments[i]).None? {
      var init, last := completions[..|completions| - 1], completions[|completions| - 1];
      if !(last.Resolved? && last.i == i) {
        ValueContributes(arguments, init, i);
      }
    }
  }

  lemma {:induction false} NoValueIsMissing(arguments: seq<Argument>, completions: seq<Completion>, i: nat)
    requires i < |arguments| && ValueOf(arguments, completions, i).None?
    requires !arguments[i].AlreadyRejected? && !HasRejection(completions, i)
    ensures arguments[i].Waiting? && IsMissing(completions, i)
    decreases |completions|
  {
    if completions != [] {
      var init := completions[..|completions| - 1];
      assert forall c | 0 <= c < |init| :: init[c] == completions[c];
      NoValueIsMissing(arguments, init, i);
    }
  }
}
