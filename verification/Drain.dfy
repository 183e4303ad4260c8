/** Draining the client connections of a forward: `ConnectionTracker`, `drain_forward_connections` and
    the accounting of `handle_client_connection` (`src/host/mod.rs`). */
module Draining {

  // ---- The tracker -------------------------------------------------------------

  /** `generation` counts the calls of `notify_waiters`; `cancelVersion` the sends on the cancellation
      channel. */
  class ConnectionTracker {
    var count: nat
    var generation: nat
    var cancelVersion: nat

    constructor ()
      ensures count == 0 && generation == 0 && cancelVersion == 0
    {
      count, generation, cancelVersion := 0, 0, 0;
    }

    method Increment()
      modifies this`count
      ensures count == old(count) + 1
    {
      count := count + 1;
    }

    method Decrement()
      requires count > 0
      modifies this`count, this`generation
      ensures count == old(count) - 1
      ensures generation == old(generation) + if count == 0 then 1 else 0
    {
      var prev := count;
      count := count - 1;
      if prev == 1 {
        generation := generation + 1;
      }
    }

    method Cancel()
      modifies this`cancelVersion
      ensures cancelVersion == old(cancelVersion) + 1
    {
      cancelVersion := cancelVersion + 1;
    }
  }

  /** How `handle_client_connection` ends once the tracker is incremented. */
  datatype ClientEnd = AtCapacity | NotQueued | Bridged | ForceClosed

  /** Whichever way it ends, a handler decrements once for its increment. */
  method HandleClientConnection(tracker: ConnectionTracker, registered: bool, queued: bool, cancelled: bool)
    returns (end: ClientEnd)
    modifies tracker`count, tracker`generation
    ensures tracker.count == old(tracker.count)
    ensures tracker.generation == old(tracker.generation) + if tracker.count == 0 then 1 else 0
    ensures end.AtCapacity? <==> !registered
    ensures end.NotQueued? <==> registered && !queued
  {
    tracker.Increment();
    if !registered {
      tracker.Decrement();
      return AtCapacity;
    }
    if !queued {
      tracker.Decrement();
      return NotQueued;
    }
    end := if cancelled then ForceClosed else Bridged;
    tracker.Decrement();
  }

  // ---- Handlers and drains, interleaving freely ------------------------------------

  type Id = nat

  /** A handler from its increment on. */
  datatype Handler =
    | Registering | Requesting
    | Bridging(seen: nat)      // subscribed to cancellation at this version
    | MustNotify               // took the count to zero, has yet to notify

  /** A call of `drain_forward_connections`. */
  datatype Waiter =
    | Entering                 // about to make a notification future
    | Armed(generation: nat)   // future made, count not yet looked at
    | Asleep(generation: nat)  // saw a connection, awaits the future
    | Drained
    | TimedOut

  /** The counter is kept as an integer: that it stays within its unsigned range is a theorem. */
  datatype Sys = Sys(count: int, generation: nat, cancelVersion: nat,
                     handlers: map<Id, Handler>, waiters: map<Id, Waiter>)

  const INIT: Sys := Sys(0, 0, 0, map[], map[])

  datatype Step =
    | Begin(handler: Id)
    | Advance(handler: Id)         // registration or request succeeded
    | Finish(handler: Id)          // failed, bridged to the end or force-closed: `fetch_sub`
    | NotifyWaiters(handler: Id)
    | Drain(waiter: Id)
    | MakeFuture(waiter: Id)
    | LookAtCount(waiter: Id)
    | Wake(waiter: Id)
    | Expire(waiter: Id)           // the timeout cancels what is left

  predicate Counted(h: Handler) { !h.MustNotify? }

  predicate Waiting(w: Waiter) { w.Entering? || w.Armed? || w.Asleep? }

  predicate Enabled(s: Sys, step: Step) {
    match step
    case Begin(h) => h !in s.handlers
    case Advance(h) => h in s.handlers && (s.handlers[h].Registering? || s.handlers[h].Requesting?)
    case Finish(h) => h in s.handlers && Counted(s.handlers[h])
    case NotifyWaiters(h) => h in s.handlers && s.handlers[h].MustNotify?
    case Drain(w) => w !in s.waiters
    case MakeFuture(w) => w in s.waiters && s.waiters[w].Entering?
    case LookAtCount(w) => w in s.waiters && s.waiters[w].Armed?
    case Wake(w) => w in s.waiters && s.waiters[w].Asleep? && s.generation != s.waiters[w].generation
    case Expire(w) => w in s.waiters && Waiting(s.waiters[w])
  }

  function Apply(s: Sys, step: Step): Sys
    requires Enabled(s, step)
  {
    match step
    case Begin(h) => s.(count := s.count + 1, handlers := s.handlers[h := Registering])
    case Advance(h) =>
      s.(handlers := s.handlers[h := if s.handlers[h].Registering? then Requesting else Bridging(s.cancelVersion)])
    case Finish(h) =>
      s.(count := s.count - 1, handlers := if s.count == 1 then s.handlers[h := MustNotify] else s.handlers - {h})
    case NotifyWaiters(h) => s.(generation := s.generation + 1, handlers := s.handlers - {h})
    case Drain(w) => s.(waiters := s.waiters[w := if s.count == 0 then Drained else Entering])
    case MakeFuture(w) => s.(waiters := s.waiters[w := Armed(s.generation)])
    case LookAtCount(w) =>
      s.(waiters := s.waiters[w := if s.count == 0 then Drained else Asleep(s.waiters[w].generation)])
    case Wake(w) => s.(waiters := s.waiters[w := Entering])
    case Expire(w) => s.(cancelVersion := s.cancelVersion + 1, waiters := s.waiters[w := TimedOut])
  }

  /** The bridge of a handler sees the cancellation. */
  predicate IsCancelled(s: Sys, h: Id) {
    h in s.handlers && s.handlers[h].Bridging? && s.handlers[h].seen != s.cancelVersion
  }

  predicate IsRun(s: Sys, steps: seq<Step>)
    decreases |steps|
  {
    steps == [] || (Enabled(s, steps[0]) && IsRun(Apply(s, steps[0]), steps[1..]))
  }

  function Run(s: Sys, steps: seq<Step>): Sys
    requires IsRun(s, steps)
    decreases |steps|
  {
    if steps == [] then s else Run(Apply(s, steps[0]), steps[1..])
  }

  /** The handlers between their increment and their decrement. */
  function Between(s: Sys): set<Id> { set h | h in s.handlers && Counted(s.handlers[h]) }

  ghost predicate SomeoneMustNotify(s: Sys) { exists h :: h in s.handlers && s.handlers[h].MustNotify? }

  /** No wakeup is lost: a waiter whose future is not notified still has something to wait for. */
  ghost predicate WakeupsKept(s: Sys) {
    forall w | w in s.waiters && s.waiters[w].Asleep? && s.waiters[w].generation == s.generation ::
      s.count > 0 || SomeoneMustNotify(s)
  }

  ghost predicate FuturesArePast(s: Sys) {
    forall w | w in s.waiters && (s.waiters[w].Armed? || s.waiters[w].Asleep?) ::
      s.waiters[w].generation <= s.generation
  }

  ghost predicate DrainOk(s: Sys) {
    && s.count == |Between(s)|
    && WakeupsKept(s) && FuturesArePast(s)
    && (forall h | h in s.handlers && s.handlers[h].Bridging? :: s.handlers[h].seen <= s.cancelVersion)
  }

  lemma StepKeepsCount(s: Sys, step: Step)
    requires Enabled(s, step) && s.count == |Between(s)|
    ensures Apply(s, step).count == |Between(Apply(s, step))|
  {
    BetweenAfter(s, step);
    hide Between;
  }

  lemma BetweenAfter(s: Sys, step: Step)
    requires Enabled(s, step)
    ensures var before, after := Between(s), Between(Apply(s, step));
      match step
      case Begin(h) => h !in before && after == before + {h}
      case Finish(h) => h in before && after == before - {h}
      case _ => after == before
  {
  }

  lemma StepKeepsWakeups(s: Sys, step: Step)
    requires Enabled(s, step) && DrainOk(s)
    ensures WakeupsKept(Apply(s, step)) && FuturesArePast(Apply(s, step))
  {
    hide Between;
    var s' := Apply(s, step);
    if step.Finish? {
      CountIsPositive(s, step.handler);
      assert s.count == 1 ==> s'.handlers[step.handler].MustNotify?;
    } else if h :| h in s.handlers && s.handlers[h].MustNotify? && step != NotifyWaiters(h) {
      assert s'.handlers[h].MustNotify?;
    }
  }

  lemma CountIsPositive(s: Sys, h: Id)
    requires s.count == |Between(s)| && h in s.handlers && Counted(s.handlers[h])
    ensures s.count > 0
  {
    assert h in Between(s);
  }

  lemma {:induction false} DrainIsAlwaysOk(s: Sys, steps: seq<Step>)
    requires DrainOk(s) && IsRun(s, steps)
    ensures DrainOk(Run(s, steps))
    decreases |steps|
  {
    if steps != [] {
      StepKeepsCount(s, steps[0]);
      StepKeepsWakeups(s, steps[0]);
      DrainIsAlwaysOk(Apply(s, steps[0]), steps[1..]);
    }
  }

  /** Main result: in every reachable state the counter is the number of handlers between their
      increment and their decrement, so a decrement never underflows; and a drain asleep on a future
      that has not been notified still has a connection to wait for, or a handler that took the count
      to zero is about to notify it. */
  lemma NoWakeupIsLost(steps: seq<Step>)
    requires IsRun(INIT, steps)
    ensures var s := Run(INIT, steps);
      && s.count == |Between(s)|
      && (forall h | Enabled(s, Finish(h)) :: s.count > 0)
      && (forall w | w in s.waiters && s.waiters[w].Asleep? && s.waiters[w].generation == s.generation ::
            s.count > 0 || SomeoneMustNotify(s))
  {
    DrainIsAlwaysOk(INIT, steps);
    var s := Run(INIT, steps);
    forall h | Enabled(s, Finish(h)) ensures s.count > 0 { CountIsPositive(s, h); }
  }

  /** A drain returns without timing out exactly when it looks at a moment at which no handler is
      between its increment and its decrement. */
  lemma DrainedMeansNoneLeft(steps: seq<Step>, step: Step)
    requires IsRun(INIT, steps) && Enabled(Run(INIT, steps), step) && (step.Drain? || step.LookAtCount?)
    ensures HasDrained(Apply(Run(INIT, steps), step), step.waiter) <==> Between(Run(INIT, steps)) == {}
  {
    DrainIsAlwaysOk(INIT, steps);
  }

  predicate HasDrained(s: Sys, w: Id) { w in s.waiters && s.waiters[w].Drained? }

  /** The waiter's own next steps, when nothing else moves. */
  function OwnSteps(s: Sys, w: Id): seq<Step>
    requires w in s.waiters && Waiting(s.waiters[w])
  {
    match s.waiters[w]
    case Entering => [MakeFuture(w), LookAtCount(w)]
    case Armed(_) => [LookAtCount(w)]
    case _ => [Wake(w), MakeFuture(w), LookAtCount(w)]
  }

  /** Once the last handler is gone no drain stays stuck: its own steps are enabled and finish it. */
  lemma DrainCompletes(steps: seq<Step>, w: Id)
    requires IsRun(INIT, steps) && Run(INIT, steps).handlers == map[]
    requires w in Run(INIT, steps).waiters && Waiting(Run(INIT, steps).waiters[w])
    ensures var s := Run(INIT, steps);
      IsRun(s, OwnSteps(s, w)) && HasDrained(Run(s, OwnSteps(s, w)), w)
  {
    DrainIsAlwaysOk(INIT, steps);
    var s := Run(INIT, steps);
    assert Between(s) == {} && !SomeoneMustNotify(s);
    assert s.count == 0;
    match s.waiters[w]
    case Armed(_) => LooksAndIsDone(s, w);
    case Entering => MakesFutureAndIsDone(s, w);
    case Asleep(_) =>
      MakesFutureAndIsDone(Apply(s, Wake(w)), w);
      assert OwnSteps(s, w)[1..] == OwnSteps(Apply(s, Wake(w)), w);
  }

  lemma LooksAndIsDone(s: Sys, w: Id)
    requires s.count == 0 && w in s.waiters && s.waiters[w].Armed?
    ensures IsRun(s, [LookAtCount(w)]) && HasDrained(Run(s, [LookAtCount(w)]), w)
  {
    assert [LookAtCount(w)][1..] == [];
  }

  lemma MakesFutureAndIsDone(s: Sys, w: Id)
    requires s.count == 0 && w in s.waiters && s.waiters[w].Entering?
    ensures IsRun(s, OwnSteps(s, w)) && HasDrained(Run(s, OwnSteps(s, w)), w)
  {
    LooksAndIsDone(Apply(s, MakeFuture(w)), w);
    assert OwnSteps(s, w)[1..] == [LookAtCount(w)];
  }

  // ---- Cancellation ------------------------------------------------------------------

  /** A drain that times out reaches exactly the handlers that are bridging at that moment. */
  lemma TimeoutCancelsBridging(steps: seq<Step>, w: Id, h: Id)
    requires IsRun(INIT, steps) && Enabled(Run(INIT, steps), Expire(w))
    ensures var s := Run(INIT, steps);
      IsCancelled(Apply(s, Expire(w)), h) <==> h in s.handlers && s.handlers[h].Bridging?
  {
    DrainIsAlwaysOk(INIT, steps);
  }

  /** ... so a handler still registering or requesting then is missed: it subscribes afterwards and
      bridges on, counted, with the drain over. */
  lemma LateSubscriberIsMissed()
    ensures var steps := [Begin(0), Drain(0), Expire(0), Advance(0), Advance(0)];
      IsRun(INIT, steps)
      && Run(INIT, steps) == Sys(1, 0, 1, map[0 := Bridging(1)], map[0 := TimedOut])
      && !IsCancelled(Run(INIT, steps), 0)
  {
  }

  // ---- What always ends ----------------------------------------------------------------

  /** A drain that has ended stays as it ended. */
  lemma {:induction false} EndedStaysEnded(s: Sys, steps: seq<Step>, w: Id)
    requires IsRun(s, steps) && w in s.waiters && !Waiting(s.waiters[w])
    ensures w in Run(s, steps).waiters && Run(s, steps).waiters[w] == s.waiters[w]
    decreases |steps|
  {
    if steps != [] { EndedStaysEnded(Apply(s, steps[0]), steps[1..], w); }
  }

  predicate IsHandlerStep(step: Step) { step.Finish? || step.NotifyWaiters? }

  /** The handlers can all finish. */
  lemma {:induction false} HandlersFinish(s: Sys) returns (steps: seq<Step>)
    ensures IsRun(s, steps) && forall i | 0 <= i < |steps| :: IsHandlerStep(steps[i])
    ensures Run(s, steps).handlers == map[] && Run(s, steps).waiters == s.waiters
    decreases |Between(s)| + |s.handlers|
  {
    if s.handlers == map[] {
      steps := [];
    } else {
      var h :| h in s.handlers;
      var step := if s.handlers[h].MustNotify? then NotifyWaiters(h) else Finish(h);
      FewerLeft(s, h);
      var rest := HandlersFinish(Apply(s, step));
      steps := [step] + rest;
      assert steps[1..] == rest;
    }
  }

  lemma FewerLeft(s: Sys, h: Id)
    requires h in s.handlers
    ensures var s' := Apply(s, if s.handlers[h].MustNotify? then NotifyWaiters(h) else Finish(h));
      |Between(s')| + |s'.handlers| < |Between(s)| + |s.handlers|
  {
    var step := if s.handlers[h].MustNotify? then NotifyWaiters(h) else Finish(h);
    BetweenAfter(s, step);
    var s' := Apply(s, step);
    if step.Finish? && s.count == 1 {
      assert s'.handlers.Keys == s.handlers.Keys;
      assert |s'.handlers.Keys| == |s.handlers.Keys|;
    } else {
      assert s'.handlers.Keys == s.handlers.Keys - {h};
      assert |s'.handlers.Keys| == |s.handlers.Keys| - 1;
    }
  }

  /** Main result: from every reachable state a drain under way can complete once the handlers finish, whatever
      they are doing, and until then it can time out. */
  lemma EveryDrainCanEnd(before: seq<Step>, w: Id) returns (finish: seq<Step>)
    requires IsRun(INIT, before)
    requires w in Run(INIT, before).waiters && Waiting(Run(INIT, before).waiters[w])
    ensures var s := Run(INIT, before);
      && IsRun(s, finish) && (forall i | 0 <= i < |finish| :: IsHandlerStep(finish[i]))
      && w in Run(s, finish).waiters && Waiting(Run(s, finish).waiters[w])
      && var own := OwnSteps(Run(s, finish), w);
         IsRun(Run(s, finish), own) && HasDrained(Run(Run(s, finish), own), w)
    ensures var s := Run(INIT, before);
      IsRun(s, [Expire(w)]) && w in Run(s, [Expire(w)]).waiters && Run(s, [Expire(w)]).waiters[w].TimedOut?
  {
    var s := Run(INIT, before);
    finish := HandlersFinish(s);
    RunsJoin(INIT, before, finish);
    DrainCompletes(before + finish, w);
    assert [Expire(w)][1..] == [];
  }

  lemma {:induction false} RunsJoin(s: Sys, a: seq<Step>, b: seq<Step>)
    requires IsRun(s, a) && IsRun(Run(s, a), b)
    ensures IsRun(s, a + b) && Run(s, a + b) == Run(Run(s, a), b)
    decreases |a|
  {
    hide Enabled, Apply;
    if a == [] {
      assert a + b == b;
    } else {
      RunsJoin(Apply(s, a[0]), a[1..], b);
      assert (a + b)[1..] == a[1..] + b;
    }
  }

  /** A new connection can be counted and come to bridge at any time. */
  lemma NewConnectionsBridge(s: Sys, h: Id)
    requires h !in s.handlers
    ensures var steps := [Begin(h), Advance(h), Advance(h)];
      && IsRun(s, steps)
      && Run(s, steps) == s.(count := s.count + 1, handlers := s.handlers[h := Bridging(s.cancelVersion)])
  {
    var s1 := Apply(s, Begin(h));
    var s2 := Apply(s1, Advance(h));
    var s3 := Apply(s2, Advance(h));
    assert [Begin(h), Advance(h), Advance(h)][1..] == [Advance(h), Advance(h)];
    assert [Advance(h), Advance(h)][1..] == [Advance(h)] && [Advance(h)][1..] == [];
    assert IsRun(s2, [Advance(h)]) && Run(s2, [Advance(h)]) == s3;
    assert IsRun(s1, [Advance(h), Advance(h)]) && Run(s1, [Advance(h), Advance(h)]) == s3;
    assert s3.handlers == s.handlers[h := Bridging(s.cancelVersion)];
  }
}
