/** What the answers of the environment make a delivery do, told from the events of whole runs. */
module CoordinatorRuns {
  import opened Types
  import opened Routing
  import opened Coordinator
  import Safety = CoordinatorSafety

  /** This event is a step of the delivery. */
  predicate StepOf(e: Event, d: DeliveryId) {
    e.Take? && e.delivery == d
  }

  /** The delivery is given its task's gate. */
  predicate Acquires(s: State, e: Event, d: DeliveryId) {
    StepOf(e, d) && d in s.deliveries && s.deliveries[d].pc.AwaitingGate?
  }

  /** The recheck under the gate answers. */
  predicate Rechecks(e: Event, d: DeliveryId, active: bool) {
    StepOf(e, d) && e.ans == Inspected(active)
  }

  /** Only its own steps change a delivery. */
  lemma StepOrStill(s: State, e: Event, d: DeliveryId)
    requires Enabled(s, e) && d in s.deliveries
    ensures d in Step(s, e).deliveries
    ensures StepOf(e, d) ==>
              Fits(s.deliveries[d], e.ans)
              && Step(s, e).deliveries[d]
                 == Advance(s.deliveries[d], e.now, s.deliveries[d].task in s.breakers, e.ans)
    ensures !StepOf(e, d) ==> Step(s, e).deliveries[d] == s.deliveries[d]
  {
    hide Advance, Entries, Breakers, Holder, Fits;
  }

  /** A delivery joins with a deadline a positive timeout away; a steer goes to the gate at once. */
  lemma Joins(s: State, e: Event, d: DeliveryId)
    requires Enabled(s, e) && d !in s.deliveries && d in Step(s, e).deliveries
    ensures e.Deliver? && e.delivery == d
    ensures Step(s, e).deliveries[d] == Spawn(e.task, e.mode, e.now, e.turnTimeout)
  {
    hide Advance, Entries, Breakers, Holder, Fits;
  }

  // ---------- the idle recheck under the gate ----------

  /** Points of a round under the gate after the recheck. */
  predicate InRound(pc: Pc) {
    || pc.CheckBreaker? || pc.Probing? || pc.Connecting? || pc.Following? || pc.Submitting? || pc.Closing?
    || pc.Decided? || pc.LocalProbing? || pc.LocalSubmitting?
  }

  /** Since it last got the gate the delivery's task was rechecked and found idle. */
  ghost predicate FoundIdle(states: seq<State>, events: seq<Event>, i: nat, d: DeliveryId)
    requires i < |states| == |events| + 1
  {
    exists a, m :: 0 <= a < m < i && Acquires(states[a], events[a], d) && Rechecks(events[m], d, false)
                   && forall k :: a < k < i ==> !Acquires(states[k], events[k], d)
  }

  ghost predicate HasGate(states: seq<State>, events: seq<Event>, i: nat, d: DeliveryId)
    requires i < |states| == |events| + 1
  {
    exists a :: 0 <= a < i && Acquires(states[a], events[a], d)
                && forall k :: a < k < i ==> !Acquires(states[k], events[k], d)
  }

  ghost predicate GateKnown(states: seq<State>, events: seq<Event>, i: nat, d: DeliveryId)
    requires i < |states| == |events| + 1
  {
    d in states[i].deliveries && states[i].deliveries[d].mode == QueueMode ==>
      && (states[i].deliveries[d].pc.Inspecting? ==> HasGate(states, events, i, d))
      && (InRound(states[i].deliveries[d].pc) ==> FoundIdle(states, events, i, d))
  }

  /** How a queue-mode delivery can come under the gate and past the recheck. */
  lemma RecheckStep(del: Delivery, now: int, blocked: bool, ans: Answer)
    requires Fits(del, ans) && del.mode == QueueMode
    ensures var after := Advance(del, now, blocked, ans);
            && after.mode == QueueMode
            && (after.pc.Inspecting? ==> del.pc.AwaitingGate?)
            && (InRound(after.pc) ==> InRound(del.pc) || (del.pc.Inspecting? && ans == Inspected(false)))
  {
  }

  lemma GateKnownStep(states: seq<State>, events: seq<Event>, i: nat, d: DeliveryId)
    requires 0 < i < |states| == |events| + 1 && GateKnown(states, events, i - 1, d)
    requires Enabled(states[i - 1], events[i - 1]) && states[i] == Step(states[i - 1], events[i - 1])
    ensures GateKnown(states, events, i, d)
  {
    hide Step, Advance, Fits, InRound, Enabled;
    var s, e := states[i - 1], events[i - 1];
    if d in states[i].deliveries && d !in s.deliveries { JoinsOutside(s, e, d); }
    if d in s.deliveries {
      StepOrStill(s, e, d);
      if StepOf(e, d) {
        var del := s.deliveries[d];
        ModeStays(del, e.now, del.task in s.breakers, e.ans);
        if del.mode == QueueMode { RecheckStep(del, e.now, del.task in s.breakers, e.ans); }
        NotBothAtOnce(del.pc);
        Extend(states, events, i, d);
      } else {
        Extend(states, events, i, d);
      }
    }
  }

  lemma NotBothAtOnce(pc: Pc)
    ensures pc.AwaitingGate? ==> !InRound(pc)
  {
  }

  lemma ModeStays(del: Delivery, now: int, blocked: bool, ans: Answer)
    requires Fits(del, ans)
    ensures Advance(del, now, blocked, ans).mode == del.mode
  {
  }

  lemma JoinsOutside(s: State, e: Event, d: DeliveryId)
    requires Enabled(s, e) && d !in s.deliveries && d in Step(s, e).deliveries
    ensures var pc := Step(s, e).deliveries[d].pc; !pc.Inspecting? && !InRound(pc)
  {
    hide Step, Enabled;
    Joins(s, e, d);
  }

  lemma Extend(states: seq<State>, events: seq<Event>, i: nat, d: DeliveryId)
    requires 0 < i < |states| == |events| + 1
    ensures Acquires(states[i - 1], events[i - 1], d) ==> HasGate(states, events, i, d)
    ensures !Acquires(states[i - 1], events[i - 1], d) && FoundIdle(states, events, i - 1, d) ==>
              FoundIdle(states, events, i, d)
    ensures !Acquires(states[i - 1], events[i - 1], d) && HasGate(states, events, i - 1, d) ==>
              HasGate(states, events, i, d)
              && (Rechecks(events[i - 1], d, false) ==> FoundIdle(states, events, i, d))
  {
    hide Acquires, Rechecks;
    if !Acquires(states[i - 1], events[i - 1], d) && FoundIdle(states, events, i - 1, d) {
      var a, m :| 0 <= a < m < i - 1 && Acquires(states[a], events[a], d) && Rechecks(events[m], d, false)
                  && forall k :: a < k < i - 1 ==> !Acquires(states[k], events[k], d);
      assert forall k :: a < k < i ==> !Acquires(states[k], events[k], d);
    }
    if !Acquires(states[i - 1], events[i - 1], d) && HasGate(states, events, i - 1, d) {
      var a :| 0 <= a < i - 1 && Acquires(states[a], events[a], d)
               && forall k :: a < k < i - 1 ==> !Acquires(states[k], events[k], d);
      assert forall k :: a < k < i ==> !Acquires(states[k], events[k], d);
    }
  }

  lemma {:induction false} GateIsKnown(states: seq<State>, events: seq<Event>, i: nat, d: DeliveryId)
    requires Run(states, events) && i < |states|
    ensures GateKnown(states, events, i, d)
  {
    if i > 0 {
      hide Step;
      GateIsKnown(states, events, i - 1, d);
      assert Enabled(states[i - 1], events[i - 1]);
      GateKnownStep(states, events, i, d);
    }
  }

  /** Whatever a step adds to the trace, it adds it in a round. */
  lemma OnlyRoundsAct(del: Delivery, now: int, blocked: bool, ans: Answer)
    requires Fits(del, ans)
    ensures Advance(del, now, blocked, ans).trace != del.trace ==> InRound(del.pc)
  {
  }

  /** In every run whatever a queue-mode delivery does, calling an adapter or ending a route, it does after a recheck
      that found its task idle since it last got the gate. */
  lemma ActsOnlyWhenFoundIdle(states: seq<State>, events: seq<Event>, i: nat, d: DeliveryId)
    requires Run(states, events) && i < |events|
    requires d in states[i].deliveries && d in states[i + 1].deliveries
    requires states[i].deliveries[d].mode == QueueMode
    requires states[i + 1].deliveries[d].trace != states[i].deliveries[d].trace
    ensures FoundIdle(states, events, i, d)
  {
    hide Step, Advance, Fits, InRound;
    assert Enabled(states[i], events[i]) && states[i + 1] == Step(states[i], events[i]);
    StepOrStill(states[i], events[i], d);
    var del := states[i].deliveries[d];
    OnlyRoundsAct(del, events[i].now, del.task in states[i].breakers, events[i].ans);
    GateIsKnown(states, events, i, d);
  }

  /** Where a delivery that found its task active can be until it is found idle. */
  predicate Backed(pc: Pc) {
    !InRound(pc) && !pc.Reconciling? && (pc.Releasing? ==> pc.gated.RetryIdle? || pc.gated.result.Settled?)
  }

  lemma StaysBacked(del: Delivery, now: int, blocked: bool, ans: Answer)
    requires Fits(del, ans) && del.mode == QueueMode
    requires Backed(del.pc) || ans == Inspected(true)
    ensures var after := Advance(del, now, blocked, ans);
            ans != Inspected(false) ==> Backed(after.pc) && after.trace == del.trace
  {
  }

  /** In every run a queue-mode delivery whose recheck found a running turn does nothing until another recheck finds its
      task idle. */
  lemma {:induction false} LeavesRunningTaskAlone(
    states: seq<State>, events: seq<Event>, i: nat, j: nat, d: DeliveryId)
    requires Run(states, events) && i < j < |states|
    requires d in states[i].deliveries && states[i].deliveries[d].mode == QueueMode && Rechecks(events[i], d, true)
    requires forall k :: i < k < j ==> !Rechecks(events[k], d, false)
    ensures d in states[j].deliveries && states[j].deliveries[d].trace == states[i].deliveries[d].trace
    ensures states[j].deliveries[d].mode == QueueMode && Backed(states[j].deliveries[d].pc)
  {
    hide Step, Advance, Backed, Fits;
    var s, e := states[j - 1], events[j - 1];
    assert Enabled(s, e) && states[j] == Step(s, e);
    if i < j - 1 { LeavesRunningTaskAlone(states, events, i, j - 1, d); }
    StepOrStill(s, e, d);
    if StepOf(e, d) {
      var del := s.deliveries[d];
      ModeStays(del, e.now, del.task in s.breakers, e.ans);
      StaysBacked(del, e.now, del.task in s.breakers, e.ans);
    }
  }

  /** The last step of the delivery was a wait that saw its task idle. */
  ghost predicate SawIdleLast(states: seq<State>, events: seq<Event>, i: nat, d: DeliveryId)
    requires i < |states| == |events| + 1
  {
    exists m :: 0 <= m < i && StepOf(events[m], d) && events[m].ans.Proceed?
                && d in states[m].deliveries && states[m].deliveries[d].pc.AwaitingIdle?
                && events[m].now >= states[m].now
                && forall k :: m < k < i ==> !StepOf(events[k], d)
  }

  lemma GateAfterIdle(del: Delivery, now: int, blocked: bool, ans: Answer)
    requires Fits(del, ans) && Advance(del, now, blocked, ans).pc.AwaitingGate?
    ensures del.pc.AwaitingIdle? && ans.Proceed?
  {
  }

  lemma QueuedStartsWaiting(task: ThreadId, mode: Mode, now: int, turnTimeout: int)
    ensures Spawn(task, mode, now, turnTimeout).mode == mode
    ensures mode == QueueMode <==> Spawn(task, mode, now, turnTimeout).pc.CheckDeadline?
    ensures mode == SteerMode <==> Spawn(task, mode, now, turnTimeout).pc.AwaitingGate?
  {
  }

  /** In every run a queued message waits for the gate only right after a wait that saw its task idle. */
  lemma {:induction false} QueuedWaitsForIdleFirst(states: seq<State>, events: seq<Event>, i: nat, d: DeliveryId)
    requires Run(states, events) && i < |states| && d in states[i].deliveries
    requires states[i].deliveries[d].mode == QueueMode && states[i].deliveries[d].pc.AwaitingGate?
    ensures SawIdleLast(states, events, i, d)
  {
    hide Step, Advance, Fits;
    assert i > 0;
    var s, e := states[i - 1], events[i - 1];
    assert Enabled(s, e) && states[i] == Step(s, e);
    if d !in s.deliveries {
      Joins(s, e, d);
      QueuedStartsWaiting(e.task, e.mode, e.now, e.turnTimeout);
    } else {
      StepOrStill(s, e, d);
      var del := s.deliveries[d];
      if StepOf(e, d) {
        GateAfterIdle(del, e.now, del.task in s.breakers, e.ans);
        assert StepOf(events[i - 1], d);
      } else {
        QueuedWaitsForIdleFirst(states, events, i - 1, d);
      }
    }
  }

  // ---------- a task that Desktop finds busy ----------

  /** Desktop's round ended with the task busy under a queued message. */
  predicate DecidedBusy(del: Delivery) {
    && del.mode == QueueMode && del.pc.Decided?
    && (del.pc.decision.Busy?
        || (del.pc.decision.outcome.NotSubmitted? && del.pc.decision.outcome.reason == TaskBusy))
  }

  /** Waiting for a turn to run and end, or given up. */
  predicate AwaitsCycle(pc: Pc) {
    pc == Releasing(RetryIdle(true)) || pc.AwaitingCycle? || pc == Finished(IdleUnavailable())
  }

  /** The canonical stream showed a turn run and end. */
  predicate SeesCycle(s: State, e: Event, d: DeliveryId) {
    StepOf(e, d) && d in s.deliveries && s.deliveries[d].pc.AwaitingCycle? && e.ans.Proceed?
  }

  lemma BusyAwaits(del: Delivery, now: int, blocked: bool, ans: Answer)
    requires Fits(del, ans) && del.mode == QueueMode
    requires DecidedBusy(del) || (AwaitsCycle(del.pc) && !(del.pc.AwaitingCycle? && ans.Proceed?))
    ensures var after := Advance(del, now, blocked, ans); AwaitsCycle(after.pc) && after.trace == del.trace
  {
  }

  /** In every run a queued message whose task Desktop found busy is neither attempted nor called for again before the
      canonical stream showed a turn run and end. */
  lemma {:induction false} BusyTaskIsWaitedFor(
    states: seq<State>, events: seq<Event>, i: nat, j: nat, d: DeliveryId)
    requires Run(states, events) && i < j < |states|
    requires d in states[i].deliveries && DecidedBusy(states[i].deliveries[d]) && StepOf(events[i], d)
    requires forall k :: i < k < j ==> !SeesCycle(states[k], events[k], d)
    ensures d in states[j].deliveries && states[j].deliveries[d].trace == states[i].deliveries[d].trace
    ensures states[j].deliveries[d].mode == QueueMode && AwaitsCycle(states[j].deliveries[d].pc)
  {
    hide Step, Advance, AwaitsCycle, Fits;
    var s, e := states[j - 1], events[j - 1];
    assert Enabled(s, e) && states[j] == Step(s, e);
    if i < j - 1 { BusyTaskIsWaitedFor(states, events, i, j - 1, d); }
    StepOrStill(s, e, d);
    if StepOf(e, d) {
      var del := s.deliveries[d];
      ModeStays(del, e.now, del.task in s.breakers, e.ans);
      BusyAwaits(del, e.now, del.task in s.breakers, e.ans);
    }
  }

  // ---------- what Desktop's decision leads to ----------

  /** After Desktop the app server is tried exactly if Desktop wrote nothing, the task is not busy and there is time; a
      busy task sends a queued message back to wait; and anything else ends the round with what Desktop said. */
  lemma FallsBackExactlyWhen(del: Delivery, now: int, blocked: bool)
    requires Fits(del, Proceed) && del.pc.Decided?
    ensures var after, decision := Advance(del, now, blocked, Proceed), del.pc.decision;
            && (DecidedBusy(del) ==> after == del.(pc := Releasing(RetryIdle(true))))
            && (!DecidedBusy(del) && decision.Outcome? ==>
                  && after.trace == del.trace + [Attempted(decision.outcome)]
                  && (after.pc.LocalProbing?
                      <==> decision.outcome.route == Desktop && decision.outcome.NotSubmitted?
                           && decision.outcome.reason != TaskBusy && now < del.deadline)
                  && (!after.pc.LocalProbing? ==> EndsRound(after.pc, decision.outcome)))
  {
    if del.pc.decision.Outcome? { FallbackIffSafe(del.pc.decision.outcome); }
  }

  /** The round is over: reported as it ended, or an ambiguous end still to be reconciled. */
  predicate EndsRound(pc: Pc, last: RouteOutcome) {
    && pc.Releasing? && pc.gated.Routed?
    && match last
       case Confirmed(Desktop, turn, operation) =>
         pc.gated.result.Settled? && pc.gated.result.outcome.ConfirmedDesktop?
         && pc.gated.result.outcome.turn == turn && pc.gated.result.outcome.operation == operation
       case Confirmed(AppServer, turn, operation) =>
         pc.gated.result.Settled? && pc.gated.result.outcome.ConfirmedAppServer?
         && pc.gated.result.outcome.turn == turn && pc.gated.result.outcome.operation == operation
       case NotSubmitted(_, _) => pc.gated.result.Settled? && pc.gated.result.outcome.UnavailableDelivery?
       case Rejected(route) =>
         pc.gated.result.Settled? && pc.gated.result.outcome.RejectedDelivery?
         && pc.gated.result.outcome.route == route
       case Ambiguous(route) => pc.gated.result.PendingReconciliation? && pc.gated.result.route == route
  }

  /** A round's result is final once the gate is released, an ambiguous one is reconciled, and a retry waits as told. */
  lemma ReleasedExactly(del: Delivery, now: int, blocked: bool)
    requires Fits(del, Proceed) && del.pc.Releasing?
    ensures var after, gated := Advance(del, now, blocked, Proceed), del.pc.gated;
            && after == del.(pc := after.pc)
            && (gated.Routed? && gated.result.Settled? ==> after.pc == Finished(gated.result.outcome))
            && (gated.Routed? && gated.result.PendingReconciliation? ==>
                  after.pc == Reconciling(gated.result.route, gated.result.attempts))
            && (gated.RetryIdle? && del.mode == QueueMode ==>
                  (after.pc.AwaitingCycle? <==> gated.requireActivity)
                  && (after.pc.CheckDeadline? <==> !gated.requireActivity))
  {
  }

  /** An ambiguous write that the canonical stream shows is confirmed with the turn found, as the operation it was; one
      that it does not show in time stays ambiguous. */
  lemma ReconciledExactly(del: Delivery, now: int, blocked: bool, ans: Answer)
    requires Fits(del, ans) && del.pc.Reconciling?
    ensures var after, route := Advance(del, now, blocked, ans), del.pc.route;
            && after.pc.Finished? && after.trace == del.trace && after.writes == del.writes
            && var final := after.pc.final;
               && (ans.TimedOut? ==>
                     final == AmbiguousDelivery(
                       route, del.pc.attempts + [Attempt(route, ReconcileAppServer, IsAmbiguous)]))
               && (ans.Matched? ==>
                     && (final.ConfirmedDesktop? <==> route == Desktop)
                     && (final.ConfirmedAppServer? <==> route == AppServer)
                     && final.turn == ans.turn
                     && final.operation == (if del.mode == QueueMode then Start else Steer)
                     && final.attempts == del.pc.attempts + [Attempt(route, ReconcileAppServer, IsConfirmed)])
  {
  }

  // ---------- waiting for idleness ----------

  /** Given up before any route was tried in this round. */
  predicate GaveUp(pc: Pc) {
    pc == Finished(IdleUnavailable()) || pc == Releasing(Routed(Settled(IdleUnavailable())))
  }

  /** A queued message gives up a wait exactly when it times out, or its deadline passed before the wait; otherwise it
      goes on to the gate, to the recheck, and back when the recheck or Desktop said so. */
  lemma WaitsExactly(del: Delivery, now: int, blocked: bool, ans: Answer)
    requires Fits(del, ans)
    ensures var after := Advance(del, now, blocked, ans);
            && (del.pc.CheckDeadline? ==>
                  (GaveUp(after.pc) <==> now >= del.deadline) && (after.pc.AwaitingIdle? <==> now < del.deadline))
            && (del.pc.AwaitingIdle? ==>
                  (GaveUp(after.pc) <==> ans.TimedOut?) && (after.pc.AwaitingGate? <==> ans.Proceed?))
            && (del.pc.AwaitingCycle? ==>
                  (GaveUp(after.pc) <==> ans.TimedOut?) && (after.pc.CheckDeadline? <==> ans.Proceed?))
            && (del.pc.AwaitingGate? ==>
                  && (after.pc.Inspecting? <==> del.mode == QueueMode)
                  && (after.pc.CheckBreaker? <==> del.mode != QueueMode))
            && (del.pc.Inspecting? ==>
                  && (GaveUp(after.pc) <==> ans.TimedOut?)
                  && (after.pc == Releasing(RetryIdle(false)) <==> ans == Inspected(true))
                  && (after.pc.CheckBreaker? <==> ans == Inspected(false)))
  {
  }

  // ---------- every call and every attempt has its step ----------

  lemma TraceStep(del: Delivery, now: int, blocked: bool, ans: Answer)
    requires Fits(del, ans)
    ensures var after := Advance(del, now, blocked, ans);
            || after.trace == del.trace
            || (|after.trace| == |del.trace| + 1 && after.trace[..|del.trace|] == del.trace
                && CausedNow(del, now, ans, after.trace[|del.trace|]))
  {
  }

  /** What makes this step add this item. */
  predicate CausedNow(del: Delivery, now: int, ans: Answer, item: Item) {
    match item
    case Called(Desktop, at) =>
      && at == now < del.deadline && del.pc.Following? && ans.Followed?
      && ans.activity == if del.mode == QueueMode then Idle else Active
    case Called(AppServer, at) => at == now < del.deadline && del.pc.LocalProbing? && ans == Status(Available)
    case Attempted(outcome) =>
      || (del.pc.Decided? && del.pc.decision == Outcome(outcome) && !DecidedBusy(del))
      || (outcome.route == AppServer && del.pc.LocalSubmitting?
          && outcome == if ans.Reply? then ans.outcome else Ambiguous(AppServer))
      || (del.pc.LocalProbing? && outcome.route == AppServer && outcome.NotSubmitted?
          && (ans != Status(Available) || now >= del.deadline))
  }

  /** The app server's submit is called exactly when it just said it is available, before the deadline. */
  lemma AppServerCalledExactlyWhen(del: Delivery, now: int, blocked: bool, ans: Answer)
    requires Fits(del, ans)
    ensures Advance(del, now, blocked, ans).trace == del.trace + [Called(AppServer, now)]
            <==> del.pc.LocalProbing? && ans == Status(Available) && now < del.deadline
  {
    var after := Advance(del, now, blocked, ans);
    if |after.trace| > |del.trace| {
      assert after.trace[|del.trace|] == Called(AppServer, now) <==>
          del.pc.LocalProbing? && ans == Status(Available) && now < del.deadline;
    }
  }

  /** In every run each item of a delivery's trace was added by one step of it, for a reason that fits. */
  lemma {:induction false} EveryItemHasItsStep(
    states: seq<State>, events: seq<Event>, i: nat, d: DeliveryId, k: nat) returns (j: nat)
    requires Run(states, events) && i < |states| && d in states[i].deliveries
    requires k < |states[i].deliveries[d].trace|
    ensures j < i && StepOf(events[j], d) && d in states[j].deliveries && |states[j].deliveries[d].trace| == k
    ensures CausedNow(states[j].deliveries[d], events[j].now, events[j].ans, states[i].deliveries[d].trace[k])
  {
    hide Step, Advance, CausedNow, Fits;
    assert i > 0;
    var s, e := states[i - 1], events[i - 1];
    assert Enabled(s, e) && states[i] == Step(s, e);
    if d !in s.deliveries {
      Joins(s, e, d);
      assert false;
    } else {
      StepOrStill(s, e, d);
      var del := s.deliveries[d];
      if StepOf(e, d) { TraceStep(del, e.now, del.task in s.breakers, e.ans); }
      if k < |del.trace| {
        j := EveryItemHasItsStep(states, events, i - 1, d, k);
      } else {
        j := i - 1;
      }
    }
  }

  /** The event that brought the delivery in. */
  ghost predicate ArrivedBy(states: seq<State>, events: seq<Event>, i: nat, d: DeliveryId, j: nat)
    requires i < |states| == |events| + 1
  {
    && j < i && events[j].Deliver? && events[j].delivery == d && d in states[i].deliveries
    && var del := states[i].deliveries[d];
       && del.task == events[j].task && del.mode == events[j].mode
       && del.deadline == events[j].now + (if events[j].turnTimeout > 1 then events[j].turnTimeout else 1)
       && events[j].now <= states[i].now
       && forall k :: 0 <= k < |del.trace| && del.trace[k].Called? ==> events[j].now <= del.trace[k].at
  }

  lemma StillArrived(states: seq<State>, events: seq<Event>, i: nat, d: DeliveryId, j: nat)
    requires 0 < i < |states| == |events| + 1 && ArrivedBy(states, events, i - 1, d, j)
    requires Enabled(states[i - 1], events[i - 1]) && states[i] == Step(states[i - 1], events[i - 1])
    ensures ArrivedBy(states, events, i, d, j)
  {
    hide Step, Advance, Fits, CausedNow;
    var s, e := states[i - 1], events[i - 1];
    StepOrStill(s, e, d);
    TimePasses(s, e);
    if StepOf(e, d) {
      var del := s.deliveries[d];
      TraceStep(del, e.now, del.task in s.breakers, e.ans);
      RequestStays(del, e.now, del.task in s.breakers, e.ans);
      CalledNow(del, e.now, del.task in s.breakers, e.ans);
    }
  }

  lemma TimePasses(s: State, e: Event)
    requires Enabled(s, e)
    ensures s.now <= e.now == Step(s, e).now
  {
  }

  lemma RequestStays(del: Delivery, now: int, blocked: bool, ans: Answer)
    requires Fits(del, ans)
    ensures var after := Advance(del, now, blocked, ans);
            after.task == del.task && after.mode == del.mode && after.deadline == del.deadline
  {
  }

  lemma CalledNow(del: Delivery, now: int, blocked: bool, ans: Answer)
    requires Fits(del, ans)
    ensures var after := Advance(del, now, blocked, ans);
            |after.trace| > |del.trace| && after.trace[|del.trace|].Called? ==> after.trace[|del.trace|].at == now
  {
  }

  lemma {:induction false} Arrival(states: seq<State>, events: seq<Event>, i: nat, d: DeliveryId) returns (j: nat)
    requires Run(states, events) && i < |states| && d in states[i].deliveries
    ensures ArrivedBy(states, events, i, d, j)
  {
    hide Step, Advance, Fits, ArrivedBy;
    assert i > 0;
    var s, e := states[i - 1], events[i - 1];
    assert Enabled(s, e) && states[i] == Step(s, e);
    if d in s.deliveries {
      j := Arrival(states, events, i - 1, d);
      StillArrived(states, events, i, d, j);
    } else {
      j := i - 1;
      Joins(s, e, d);
      TimePasses(s, e);
      assert ArrivedBy(states, events, i, d, j) by { JustArrived(states, events, i, d); }
    }
  }

  lemma JustArrived(states: seq<State>, events: seq<Event>, i: nat, d: DeliveryId)
    requires 0 < i < |states| == |events| + 1 && d in states[i].deliveries
    requires var e := events[i - 1];
             && e.Deliver? && e.delivery == d && states[i].now == e.now
             && states[i].deliveries[d] == Spawn(e.task, e.mode, e.now, e.turnTimeout)
    ensures ArrivedBy(states, events, i, d, i - 1)
  {
  }

  /** In every run every adapter call of a delivery is made after the message arrived and before its turn timeout,
      counted from the arrival and at least one millisecond, is over. */
  lemma CallsAreInTime(states: seq<State>, events: seq<Event>, i: nat, d: DeliveryId) returns (j: nat)
    requires Run(states, events) && i < |states| && d in states[i].deliveries
    ensures j < i && events[j].Deliver? && events[j].delivery == d
    ensures states[i].deliveries[d].task == events[j].task && states[i].deliveries[d].mode == events[j].mode
    ensures var trace, arrived, timeout := states[i].deliveries[d].trace, events[j].now, events[j].turnTimeout;
            forall k :: 0 <= k < |trace| && trace[k].Called? ==>
              arrived <= trace[k].at < arrived + if timeout > 1 then timeout else 1
  {
    hide Safety.GateInv, Safety.BreakerInv, Safety.LogInv, Safety.BreakerRespected;
    j := Arrival(states, events, i, d);
    Safety.RunKeeps(states, events, i);
    InvIsInTime(states[i].deliveries[d]);
  }

  lemma InvIsInTime(del: Delivery)
    requires Safety.DeliveryInv(del)
    ensures forall k :: 0 <= k < |del.trace| && del.trace[k].Called? ==> del.trace[k].at < del.deadline
  {
  }
}
