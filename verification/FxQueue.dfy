/** The effects queue of an element, with its "inprogress" sentinel, and the effects that
    move the animations they have just queued to the front of it. */
module FxQueue {
  import opened Optional
  import opened Lists

  datatype Item = Inprogress | Fn(id: nat)

  /** The functions in a queue, without the sentinel. */
  function Functions(q: seq<Item>): seq<nat> {
    if q == [] then []
    else (if q[0].Fn? then [q[0].id] else []) + Functions(q[1..])
  }

  lemma {:induction false} FunctionsAppend(a: seq<Item>, b: seq<Item>)
    ensures Functions(a + b) == Functions(a) + Functions(b)
  {
    if a == [] {
      assert a + b == b;
    } else {
      assert (a + b)[0] == a[0] && (a + b)[1..] == a[1..] + b;
      FunctionsAppend(a[1..], b);
      ConcatAssociates(if a[0].Fn? then [a[0].id] else [], Functions(a[1..]), Functions(b));
    }
  }

  /** The sentinel occurs at the head or not at all. */
  ghost predicate SentinelOnlyAtHead(q: seq<Item>) {
    forall i | 0 < i < |q| :: q[i].Fn?
  }

  predicate Running(q: seq<Item>) {
    q != [] && q[0] == Inprogress
  }

  /** What waits behind the sentinel. */
  function Waiting(q: seq<Item>): seq<Item> {
    if Running(q) then q[1..] else q
  }

  lemma WaitingFunctions(q: seq<Item>)
    ensures Functions(q) == Functions(Waiting(q))
    ensures Waiting(q) != [] && SentinelOnlyAtHead(q) ==>
      Waiting(q)[0].Fn? && Functions(q) == [Waiting(q)[0].id] + Functions([Inprogress] + Waiting(q)[1..])
  {
    if Waiting(q) != [] {
      assert ([Inprogress] + Waiting(q)[1..])[1..] == Waiting(q)[1..];
    }
  }

  /** `splice( from, count )`: what it removes and what it leaves. */
  function Spliced(q: seq<Item>, from: nat, count: nat): (seq<Item>, seq<Item>)
    requires from <= |q|
  {
    var upto := if from + count > |q| then |q| else from + count;
    (q[from..upto], q[..from] + q[upto..])
  }

  class EffectsQueue {
    /** `jQuery._data( elem, "fxqueue" )` */
    var data: Option<seq<Item>>
    /** Functions enqueued and functions started, in order. */
    ghost var enqueued: seq<nat>
    ghost var started: seq<nat>

    /** What `jQuery.queue( elem, "fx" )` returns. */
    function Queue(): seq<Item>
      reads this
    {
      if data.Some? then data.value else []
    }

    ghost predicate Valid()
      reads this
    {
      SentinelOnlyAtHead(Queue())
    }

    /** Every function enqueued has been started or waits, in the order of enqueueing. */
    ghost predicate Fifo()
      reads this
    {
      started + Functions(Queue()) == enqueued
    }

    constructor ()
      ensures Valid() && Fifo() && Queue() == [] && enqueued == [] && started == []
    {
      data, enqueued, started := None, [], [];
    }

    /** `jQuery.queue( elem, "fx", fn )` */
    method Push(fn: nat)
      requires Valid()
      modifies this
      ensures Valid() && Queue() == old(Queue()) + [Fn(fn)]
      ensures enqueued == old(enqueued) + [fn] && started == old(started)
      ensures old(Fifo()) ==> Fifo()
    {
      data := if data.None? then Some([Fn(fn)]) else Some(data.value + [Fn(fn)]);
      enqueued := enqueued + [fn];
      FunctionsAppend(old(Queue()), [Fn(fn)]);
      ConcatAssociates(started, Functions(old(Queue())), [fn]);
    }

    /** `jQuery.dequeue( elem, "fx" )`, up to the call of the function it takes out.  What that
        function does, to this queue or otherwise, comes after. */
    method Dequeue() returns (fn: Option<nat>)
      requires Valid()
      modifies this
      ensures Valid() && enqueued == old(enqueued)
      ensures Waiting(old(Queue())) == [] ==> fn.None? && Queue() == [] && started == old(started)
      ensures Waiting(old(Queue())) != [] ==>
        && fn == Some(Waiting(old(Queue()))[0].id) && started == old(started) + [fn.value]
        && Queue() == [Inprogress] + Waiting(old(Queue()))[1..]
      ensures old(Fifo()) ==> Fifo()
    {
      WaitingFunctions(Queue());
      var queue := Queue();
      var startLength := |queue|;
      var item := First(queue);
      queue := Rest(queue);
      if item == Some(Inprogress) {
        item, queue := First(queue), Rest(queue);
        startLength := startLength - 1;
      }
      fn := None;
      if item.Some? {
        fn := Some(item.value.id);
        queue := [Inprogress] + queue;
        started := started + [item.value.id];
        ConcatAssociates(old(started), [item.value.id], Functions(queue));
      }
      if data.Some? {
        data := Some(queue);
      }
      if startLength == 0 {
        // hooks.empty fires and removes the queue
        data := None;
      }
    }

    /** `.queue( fn )`: an idle effects queue starts at once. */
    method Enqueue(fn: nat)
      requires Valid()
      modifies this
      ensures Valid() && enqueued == old(enqueued) + [fn] && Running(Queue())
      ensures old(Fifo()) ==> Fifo()
      ensures old(Running(Queue())) ==> Queue() == old(Queue()) + [Fn(fn)] && started == old(started)
      ensures old(Queue()) == [] ==> Queue() == [Inprogress] && started == old(started) + [fn]
    {
      Push(fn);
      if Queue()[0] != Inprogress {
        var first := Dequeue();
      }
    }

    /** Enqueue the next of an effect's functions, numbered from `base`, onto what was `q`. */
    method EnqueueNext(ghost q: seq<Item>, ghost before: seq<nat>, base: nat, k: nat)
      requires Valid() && AtRest(q) && Queue() == QueueAfter(q, base, k) && started == StartedAfter(before, q, base, k)
      modifies this
      ensures Valid() && Queue() == QueueAfter(q, base, k + 1) && started == StartedAfter(before, q, base, k + 1)
      ensures enqueued == old(enqueued) + [base + k] && (old(Fifo()) ==> Fifo())
    {
      Enqueue(base + k);
      assert FnItems(base, k + 1) == FnItems(base, k) + [Fn(base + k)];
      assert k > 0 ==> FnItems(base + 1, k) == FnItems(base + 1, k - 1) + [Fn(base + k)];
    }

    /** The tail shared by bounce, pulsate and shake, for an effect that found the queue `q`
        of length `queuelen` and has queued `anims + 1` functions since. */
    method MoveToFront(ghost q: seq<Item>, ghost before: seq<nat>, base: nat, queuelen: nat, anims: nat)
      requires Valid() && AtRest(q) && queuelen == |q| && anims > 0
      requires Queue() == QueueAfter(q, base, anims + 1) && started == StartedAfter(before, q, base, anims + 1)
      modifies this
      ensures Valid() && enqueued == old(enqueued)
      ensures JumpsQueue(q, before, base, anims, Queue(), started)
    {
      if queuelen > 1 {
        var (removed, rest) := Spliced(Queue(), queuelen, anims + 1);
        FrontedNew(q, base, anims);
        data := Some(rest[..1] + removed + rest[1..]);
        FrontedWaits(q, base, anims);
      } else {
        NothingToPass(q, base, anims);
      }
      var next := Dequeue();
    }

    /** Bounce: `times` pairs of animations, one more to show or to hide, and the last function. */
    method Bounce(times: nat, show: bool, hide': bool, base: nat)
      requires Valid() && AtRest(Queue()) && !(show && hide') && times > 0
      modifies this
      ensures Valid()
      ensures JumpsQueue(old(Queue()), old(started), base, times * 2 + (if show || hide' then 1 else 0), Queue(), started)
    {
      var anims := times * 2 + (if show || hide' then 1 else 0);
      var queuelen := |Queue()|;
      ghost var q, before := Queue(), started;
      NothingQueuedYet(q, before, base);
      hide QueueAfter, StartedAfter, AtRest, JumpsQueue;
      var queued := 0;
      if show {
        EnqueueNext(q, before, base, 0);
        queued := 1;
      }
      var i := 0;
      while i < times
        invariant 0 <= i <= times && queued == 2 * i + (if show then 1 else 0)
        invariant Valid() && Queue() == QueueAfter(q, base, queued) && started == StartedAfter(before, q, base, queued)
      {
        EnqueueNext(q, before, base, queued);
        EnqueueNext(q, before, base, queued + 1);
        queued := queued + 2;
        i := i + 1;
      }
      if hide' {
        EnqueueNext(q, before, base, queued);
        queued := queued + 1;
      }
      EnqueueNext(q, before, base, queued);
      MoveToFront(q, before, base, queuelen, anims);
    }

    /** Pulsate: `anims` toggles of opacity and the last function. */
    method Pulsate(times: nat, showhide: bool, base: nat)
      requires Valid() && AtRest(Queue()) && times > 0
      modifies this
      ensures Valid()
      ensures JumpsQueue(old(Queue()), old(started), base, times * 2 + (if showhide then 1 else 0), Queue(), started)
    {
      var anims := times * 2 + (if showhide then 1 else 0);
      var queuelen := |Queue()|;
      ghost var q, before := Queue(), started;
      NothingQueuedYet(q, before, base);
      hide QueueAfter, StartedAfter, AtRest, JumpsQueue;
      var i := 1;
      while i < anims
        invariant 1 <= i <= anims
        invariant Valid() && Queue() == QueueAfter(q, base, i - 1) && started == StartedAfter(before, q, base, i - 1)
      {
        EnqueueNext(q, before, base, i - 1);
        i := i + 1;
      }
      EnqueueNext(q, before, base, anims - 1);
      EnqueueNext(q, before, base, anims);
      MoveToFront(q, before, base, queuelen, anims);
    }

    /** Shake: one animation, `times - 1` pairs, two more and the last function. */
    method Shake(times: nat, base: nat)
      requires Valid() && AtRest(Queue()) && times > 0
      modifies this
      ensures Valid()
      ensures JumpsQueue(old(Queue()), old(started), base, times * 2 + 1, Queue(), started)
    {
      var anims := times * 2 + 1;
      var queuelen := |Queue()|;
      ghost var q, before := Queue(), started;
      NothingQueuedYet(q, before, base);
      hide QueueAfter, StartedAfter, AtRest, JumpsQueue;
      EnqueueNext(q, before, base, 0);
      var i := 1;
      while i < times
        invariant 1 <= i <= times
        invariant Valid() && Queue() == QueueAfter(q, base, 2 * i - 1) && started == StartedAfter(before, q, base, 2 * i - 1)
      {
        EnqueueNext(q, before, base, 2 * i - 1);
        EnqueueNext(q, before, base, 2 * i);
        i := i + 1;
      }
      EnqueueNext(q, before, base, 2 * times - 1);
      EnqueueNext(q, before, base, 2 * times);
      EnqueueNext(q, before, base, 2 * times + 1);
      MoveToFront(q, before, base, queuelen, anims);
    }
  }

  /** What `shift()` returns, and what it leaves. */
  function First(q: seq<Item>): Option<Item> {
    if q == [] then None else Some(q[0])
  }

  function Rest(q: seq<Item>): seq<Item> {
    if q == [] then [] else q[1..]
  }

  /** A queue used through `.queue` and `dequeue` only is empty or headed by the sentinel. */
  ghost predicate AtRest(q: seq<Item>) {
    SentinelOnlyAtHead(q) && (q != [] ==> q[0] == Inprogress)
  }

  /** The functions `base, base + 1, ...` as entries. */
  function FnItems(base: nat, count: nat): (r: seq<Item>)
    ensures |r| == count && forall i | 0 <= i < count :: r[i] == Fn(base + i)
  {
    seq(count, i requires 0 <= i < count => Fn(base + i))
  }

  /** The queue `q` after `k` functions from `base` have been enqueued: the first of them has
      already left an idle queue. */
  function QueueAfter(q: seq<Item>, base: nat, k: nat): seq<Item> {
    if q != [] || k == 0 then q + FnItems(base, k) else [Inprogress] + FnItems(base + 1, k - 1)
  }

  function StartedAfter(started: seq<nat>, q: seq<Item>, base: nat, k: nat): seq<nat> {
    if q != [] || k == 0 then started else started + [base]
  }

  /** An effect run from inside the queue `q` starts the first of its `anims + 1` functions and
      puts the others, in order, before all that waited in `q`.  Run on an idle queue, it
      starts its first two functions together. */
  ghost predicate JumpsQueue(q: seq<Item>, started: seq<nat>, base: nat, anims: nat, q': seq<Item>, started': seq<nat>)
    requires anims > 0
  {
    if q != [] then
      q' == [Inprogress] + FnItems(base + 1, anims) + q[1..] && started' == started + [base]
    else
      q' == [Inprogress] + FnItems(base + 2, anims - 1) && started' == started + [base] + [base + 1]
  }

  lemma FrontedNew(q: seq<Item>, base: nat, anims: nat)
    requires |q| > 1
    ensures var (removed, rest) := Spliced(q + FnItems(base, anims + 1), |q|, anims + 1);
      removed == FnItems(base, anims + 1) && rest == q
  {
  }

  /** What waits once the effect's functions are in place. */
  function InPlace(q: seq<Item>, base: nat, anims: nat): seq<Item> {
    if q != [] then FnItems(base, anims + 1) + q[1..] else FnItems(base + 1, anims)
  }

  lemma InPlaceTail(q: seq<Item>, base: nat, anims: nat)
    requires anims > 0
    ensures InPlace(q, base, anims) != []
    ensures InPlace(q, base, anims)[0] == if q != [] then Fn(base) else Fn(base + 1)
    ensures InPlace(q, base, anims)[1..] ==
            if q != [] then FnItems(base + 1, anims) + q[1..] else FnItems(base + 2, anims - 1)
  {
    assert FnItems(base, anims + 1)[1..] == FnItems(base + 1, anims);
  }

  lemma FrontedWaits(q: seq<Item>, base: nat, anims: nat)
    requires AtRest(q) && |q| > 1 && anims > 0
    ensures var now := q[..1] + FnItems(base, anims + 1) + q[1..];
      && SentinelOnlyAtHead(now) && Waiting(now) == InPlace(q, base, anims)
    ensures InPlace(q, base, anims)[1..] == FnItems(base + 1, anims) + q[1..] && InPlace(q, base, anims)[0] == Fn(base)
  {
    InPlaceTail(q, base, anims);
    var now := q[..1] + FnItems(base, anims + 1) + q[1..];
    assert now[1..] == FnItems(base, anims + 1) + q[1..];
    assert forall i | 0 < i < |now| :: now[i] == InPlace(q, base, anims)[i - 1];
  }

  lemma NothingToPass(q: seq<Item>, base: nat, anims: nat)
    requires AtRest(q) && |q| <= 1 && anims > 0
    ensures Waiting(QueueAfter(q, base, anims + 1)) == InPlace(q, base, anims)
    ensures q != [] ==>
      InPlace(q, base, anims)[1..] == FnItems(base + 1, anims) + q[1..] && InPlace(q, base, anims)[0] == Fn(base)
    ensures q == [] ==>
      InPlace(q, base, anims)[1..] == FnItems(base + 2, anims - 1) && InPlace(q, base, anims)[0] == Fn(base + 1)
  {
    InPlaceTail(q, base, anims);
    if q != [] {
      assert QueueAfter(q, base, anims + 1)[1..] == FnItems(base, anims + 1) + q[1..];
    } else {
      assert QueueAfter(q, base, anims + 1)[1..] == FnItems(base + 1, anims);
    }
  }

  lemma NothingQueuedYet(q: seq<Item>, started: seq<nat>, base: nat)
    ensures QueueAfter(q, base, 0) == q && StartedAfter(started, q, base, 0) == started
  {
  }

  lemma NumberedFunctions(base: nat, count: nat)
    requires count > 0
    ensures Functions(FnItems(base, count)) == [base] + Functions(FnItems(base + 1, count - 1))
  {
    assert FnItems(base, count)[1..] == FnItems(base + 1, count - 1);
  }

  lemma BehindSentinel(items: seq<Item>)
    ensures Functions([Inprogress] + items) == Functions(items)
  {
    assert ([Inprogress] + items)[1..] == items;
  }

  lemma JumpOrder(q: seq<Item>, base: nat, anims: nat)
    requires Running(q)
    ensures Functions([Inprogress] + FnItems(base + 1, anims) + q[1..]) == Functions(FnItems(base + 1, anims)) + Functions(q)
    ensures Functions(FnItems(base, anims + 1)) == [base] + Functions(FnItems(base + 1, anims))
  {
    NumberedFunctions(base, anims + 1);
    assert q == [Inprogress] + q[1..];
    BehindSentinel(q[1..]);
    BehindSentinel(FnItems(base + 1, anims));
    FunctionsAppend([Inprogress] + FnItems(base + 1, anims), q[1..]);
  }

  lemma IdleJumpOrder(base: nat, anims: nat)
    requires anims > 0
    ensures Functions(FnItems(base, anims + 1)) == [base] + ([base + 1] + Functions(FnItems(base + 2, anims - 1)))
    ensures Functions([Inprogress] + FnItems(base + 2, anims - 1)) == Functions(FnItems(base + 2, anims - 1))
  {
    NumberedFunctions(base, anims + 1);
    NumberedFunctions(base + 1, anims);
    BehindSentinel(FnItems(base + 2, anims - 1));
  }

  /** Nothing is lost or duplicated by moving entries to the front. */
  lemma JumpConserves(q: seq<Item>, started: seq<nat>, base: nat, anims: nat, q': seq<Item>, started': seq<nat>)
    requires anims > 0 && AtRest(q) && JumpsQueue(q, started, base, anims, q', started')
    ensures multiset(started' + Functions(q')) ==
            multiset(started + Functions(q)) + multiset(Functions(FnItems(base, anims + 1)))
  {
    if q != [] {
      JumpOrder(q, base, anims);
    } else {
      IdleJumpOrder(base, anims);
    }
  }
}
