/** What every run of the coordinator keeps: at most one write, an honest outcome, and the breaker. */
module CoordinatorSafety {
  import opened Types
  import opened Routing
  import opened Coordinator

  // ---------- one delivery ----------

  /** Only Desktop calls so far: every one of them ended without a write. */
  ghost predicate Fresh(trace: seq<Item>) {
    forall i :: 0 <= i < |trace| ==> trace[i].Called? && trace[i].route == Desktop
  }

  ghost predicate EndsWith(trace: seq<Item>, outcome: RouteOutcome) {
    |trace| > 0 && trace[|trace| - 1] == Attempted(outcome)
  }

  function Front(trace: seq<Item>): seq<Item>
    requires |trace| > 0
  {
    trace[..|trace| - 1]
  }

  /** The shape of a finished routing round: Desktop alone, or a safe Desktop end and then the app-server. */
  ghost predicate Ended(trace: seq<Item>, last: RouteOutcome) {
    && EndsWith(trace, last)
    && if last.route == Desktop then Fresh(Front(trace))
       else FellBack(Front(trace)) || (|trace| > 1 && trace[|trace| - 2].Called?
                                       && trace[|trace| - 2].route == AppServer
                                       && FellBack(Front(Front(trace))))
  }

  ghost predicate FellBack(trace: seq<Item>) {
    && |trace| > 0
    && trace[|trace| - 1].Attempted?
    && MayFallback(trace[|trace| - 1].outcome)
    && Fresh(Front(trace))
  }

  /** Between the Desktop end and the app-server end, before or after the app-server call. */
  ghost predicate LocalPhase(trace: seq<Item>, desktop: RouteOutcome, called: bool) {
    if called then
      && |trace| > 0 && trace[|trace| - 1].Called? && trace[|trace| - 1].route == AppServer
      && FellBack(Front(trace)) && EndsWith(Front(trace), desktop)
    else FellBack(trace) && EndsWith(trace, desktop)
  }

  function Attempts(trace: seq<Item>): seq<Attempt> {
    if trace == [] then []
    else Attempts(Front(trace)) + match trace[|trace| - 1]
                                  case Called(_, _) => []
                                  case Attempted(outcome) => [AttemptOf(outcome)]
  }

  lemma {:induction false} FreshHasNoAttempt(trace: seq<Item>)
    requires Fresh(trace)
    ensures Attempts(trace) == []
  {
    if trace != [] { FreshHasNoAttempt(Front(trace)); }
  }

  /** At most one write, and only by this route. */
  ghost predicate WrittenBy(route: Route, writes: seq<Write>) {
    writes == [] || (|writes| == 1 && writes[0].route == route)
  }

  ghost predicate WritesFit(outcome: RouteOutcome, writes: seq<Write>) {
    && (outcome.NotSubmitted? ==> writes == [])
    && (outcome.Confirmed? ==> writes == [Write(outcome.route, outcome.turn)])
    && WrittenBy(outcome.route, writes)
  }

  ghost predicate DecisionFits(decision: Decision, trace: seq<Item>, writes: seq<Write>) {
    && (decision.Busy? ==> writes == [])
    && (decision.Outcome? ==>
          && decision.outcome.route == Desktop
          && WritesFit(decision.outcome, writes)
          && (!decision.outcome.NotSubmitted? ==> trace != []))
  }

  /** A result that needs no reconciliation. */
  ghost predicate Reported(final: DeliveryOutcome, trace: seq<Item>, writes: seq<Write>) {
    match final
    case ConfirmedDesktop(turn, operation, attempts) =>
      && writes == [Write(Desktop, turn)] && attempts == Attempts(trace)
      && Ended(trace, Confirmed(Desktop, turn, operation))
    case ConfirmedAppServer(turn, operation, attempts) =>
      && writes == [Write(AppServer, turn)] && attempts == Attempts(trace)
      && Ended(trace, Confirmed(AppServer, turn, operation))
    case RejectedDelivery(route, attempts) =>
      && attempts == Attempts(trace) && WrittenBy(route, writes)
      && Ended(trace, Rejected(route))
    case UnavailableDelivery(attempts) =>
      && writes == []
      && ((Fresh(trace) && final == IdleUnavailable())
          || (attempts == Attempts(trace) && exists o: RouteOutcome :: o.NotSubmitted? && Ended(trace, o)))
    case AmbiguousDelivery(_, _) => false
  }

  ghost predicate Pending(route: Route, attempts: seq<Attempt>, trace: seq<Item>, writes: seq<Write>) {
    && Ended(trace, Ambiguous(route))
    && attempts == Attempts(trace)
    && WrittenBy(route, writes)
  }

  ghost predicate ResultFits(result: RoutingResult, trace: seq<Item>, writes: seq<Write>) {
    match result
    case Settled(final) => Reported(final, trace, writes)
    case PendingReconciliation(route, attempts) => Pending(route, attempts, trace, writes)
  }

  /** A final outcome, reconciled or not. */
  ghost predicate FinalFits(final: DeliveryOutcome, mode: Mode, trace: seq<Item>, writes: seq<Write>) {
    || Reported(final, trace, writes)
    || (&& final.AmbiguousDelivery?
        && Pending(final.route, Attempts(trace), trace, writes)
        && final.attempts == Attempts(trace) + [Attempt(final.route, ReconcileAppServer, IsAmbiguous)])
    || exists route: Route ::
         && Pending(route, Attempts(trace), trace, writes)
         && writes != []
         && final == ConfirmedBy(route, writes[0].turn, OperationOf(mode),
                                 Attempts(trace) + [Attempt(route, ReconcileAppServer, IsConfirmed)])
  }

  ghost predicate InTime(trace: seq<Item>, deadline: int) {
    forall i :: 0 <= i < |trace| && trace[i].Called? ==> trace[i].at < deadline
  }

  /** Points a steer never reaches: in particular it is never told to retry. */
  ghost predicate QueueOnly(pc: Pc) {
    || pc.CheckDeadline? || pc.AwaitingIdle? || pc.Inspecting? || pc.AwaitingCycle?
    || (pc.Closing? && pc.decision.Busy?)
    || (pc.Decided? && pc.decision.Busy?)
    || (pc.Releasing? && pc.gated.RetryIdle?)
  }

  ghost predicate DeliveryInv(del: Delivery) {
    && InTime(del.trace, del.deadline)
    && (QueueOnly(del.pc) ==> del.mode == QueueMode)
    && match del.pc
       case CheckDeadline | AwaitingIdle | AwaitingGate | Inspecting | CheckBreaker | Probing | Connecting
         | Following | AwaitingCycle => Fresh(del.trace) && del.writes == []
       case Submitting => Fresh(del.trace) && del.trace != [] && del.writes == []
       case Closing(decision, submitted) =>
         && Fresh(del.trace) && DecisionFits(decision, del.trace, del.writes)
         && (submitted ==> del.trace != [])
         && (!submitted ==> decision.Busy? || decision.outcome.NotSubmitted?)
       case Decided(decision) =>
         && Fresh(del.trace) && DecisionFits(decision, del.trace, del.writes)
       case LocalProbing(desktop) =>
         LocalPhase(del.trace, desktop, false) && del.writes == []
       case LocalSubmitting(desktop) =>
         LocalPhase(del.trace, desktop, true) && del.writes == []
       case Releasing(gated) =>
         if gated.RetryIdle? then Fresh(del.trace) && del.writes == []
         else ResultFits(gated.result, del.trace, del.writes)
       case Reconciling(route, attempts) => Pending(route, attempts, del.trace, del.writes)
       case Finished(final) => FinalFits(final, del.mode, del.trace, del.writes)
  }

  lemma InTimeAppend(trace: seq<Item>, item: Item, deadline: int)
    requires InTime(trace, deadline) && (item.Called? ==> item.at < deadline)
    ensures InTime(trace + [item], deadline)
  {
  }

  lemma DesktopEnds(trace: seq<Item>, outcome: RouteOutcome)
    requires Fresh(trace) && outcome.route == Desktop
    ensures Ended(trace + [Attempted(outcome)], outcome)
    ensures MayFallback(outcome) ==> FellBack(trace + [Attempted(outcome)])
    ensures Attempts(trace + [Attempted(outcome)]) == [AttemptOf(outcome)]
  {
    assert Front(trace + [Attempted(outcome)]) == trace;
    FreshHasNoAttempt(trace);
  }

  lemma LocalEnds(trace: seq<Item>, desktop: RouteOutcome, outcome: RouteOutcome)
    requires outcome.route == AppServer
    requires LocalPhase(trace, desktop, true) || LocalPhase(trace, desktop, false)
    ensures Ended(trace + [Attempted(outcome)], outcome)
    ensures Attempts(trace + [Attempted(outcome)]) == [AttemptOf(desktop), AttemptOf(outcome)]
  {
    var ended := trace + [Attempted(outcome)];
    assert Front(ended) == trace;
    if LocalPhase(trace, desktop, true) {
      assert ended[|ended| - 2] == trace[|trace| - 1];
      FellBackAttempts(Front(trace), desktop);
    } else {
      FellBackAttempts(trace, desktop);
    }
  }

  lemma FellBackAttempts(trace: seq<Item>, desktop: RouteOutcome)
    requires FellBack(trace) && EndsWith(trace, desktop)
    ensures Attempts(trace) == [AttemptOf(desktop)]
  {
    FreshHasNoAttempt(Front(trace));
  }

  /** A settled round reports exactly the attempts it made. */
  lemma RouteResultFits(outcome: RouteOutcome, attempts: seq<Attempt>, trace: seq<Item>, writes: seq<Write>)
    requires Ended(trace, outcome) && attempts == Attempts(trace) && WritesFit(outcome, writes)
    ensures ResultFits(RouteResult(outcome, attempts), trace, writes)
  {
  }

  lemma AfterDesktopKeeps(del: Delivery, now: int)
    requires del.pc.Decided? && DeliveryInv(del)
    ensures DeliveryInv(AfterDesktop(del, now, del.pc.decision))
  {
    var after := AfterDesktop(del, now, del.pc.decision);
    if after.pc == Releasing(RetryIdle(true)) {
      assert after.trace == del.trace;
    } else {
      DesktopRoundKeeps(del, after, del.pc.decision.outcome);
    }
  }

  lemma DesktopRoundKeeps(del: Delivery, after: Delivery, outcome: RouteOutcome)
    requires Fresh(del.trace) && InTime(del.trace, del.deadline)
    requires outcome.route == Desktop && WritesFit(outcome, del.writes)
    requires after.trace == del.trace + [Attempted(outcome)]
    requires after.writes == del.writes && after.deadline == del.deadline
    requires || after.pc == Releasing(Routed(RouteResult(outcome, [AttemptOf(outcome)])))
             || (after.pc == LocalProbing(outcome) && MayFallback(outcome))
    ensures DeliveryInv(after)
  {
    DesktopEnds(del.trace, outcome);
    InTimeAppend(del.trace, Attempted(outcome), del.deadline);
    RouteResultFits(outcome, [AttemptOf(outcome)], after.trace, after.writes);
  }

  lemma AfterLocalKeeps(del: Delivery, desktop: RouteOutcome, outcome: RouteOutcome)
    requires InTime(del.trace, del.deadline) && outcome.route == AppServer && WritesFit(outcome, del.writes)
    requires LocalPhase(del.trace, desktop, true) || LocalPhase(del.trace, desktop, false)
    ensures DeliveryInv(AfterLocal(del, desktop, outcome))
  {
    LocalEnds(del.trace, desktop, outcome);
    InTimeAppend(del.trace, Attempted(outcome), del.deadline);
    RouteResultFits(outcome, [AttemptOf(desktop), AttemptOf(outcome)], del.trace + [Attempted(outcome)], del.writes);
  }

  lemma LocalProbingKeeps(del: Delivery, now: int, blocked: bool, ans: Answer)
    requires del.pc.LocalProbing? && DeliveryInv(del) && Fits(del, ans)
    ensures DeliveryInv(Advance(del, now, blocked, ans))
  {
    var desktop := del.pc.desktop;
    if ans.TimedOut? { AfterLocalKeeps(del, desktop, Timeout(AppServer)); }
    else if ans.Defect? { AfterLocalKeeps(del, desktop, Unexpected(AppServer, false)); }
    else if ans.status != Available { AfterLocalKeeps(del, desktop, StatusOutcome(AppServer, ans.status)); }
    else if now >= del.deadline { AfterLocalKeeps(del, desktop, Timeout(AppServer)); }
    else {
      InTimeAppend(del.trace, Called(AppServer, now), del.deadline);
      assert Front(del.trace + [Called(AppServer, now)]) == del.trace;
    }
  }

  lemma AfterReconcileKeeps(del: Delivery, now: int, blocked: bool, ans: Answer)
    requires del.pc.Reconciling? && DeliveryInv(del) && Fits(del, ans)
    ensures DeliveryInv(Advance(del, now, blocked, ans))
  {
    var final := AfterReconcile(del.mode, del.pc.route, del.pc.attempts, ans);
    assert Pending(del.pc.route, Attempts(del.trace), del.trace, del.writes);
    assert FinalFits(final, del.mode, del.trace, del.writes);
  }

  /** Waiting, probing and closing write nothing and call nothing, except the Desktop call itself. */
  lemma DesktopPhaseKeeps(del: Delivery, now: int, blocked: bool, ans: Answer)
    requires DeliveryInv(del) && Fits(del, ans)
    requires !del.pc.Decided? && !del.pc.LocalProbing? && !del.pc.LocalSubmitting? && !del.pc.Reconciling?
    requires !del.pc.Releasing?
    ensures DeliveryInv(Advance(del, now, blocked, ans))
  {
    if del.pc.Following? { FollowingKeeps(del, now, blocked, ans); }
    assert Reported(IdleUnavailable(), [], []);
  }

  lemma FollowingKeeps(del: Delivery, now: int, blocked: bool, ans: Answer)
    requires DeliveryInv(del) && Fits(del, ans) && del.pc.Following?
    ensures DeliveryInv(Advance(del, now, blocked, ans))
  {
    if now < del.deadline { InTimeAppend(del.trace, Called(Desktop, now), del.deadline); }
  }

  /** Every step of a delivery keeps its invariant, whatever the environment answers. */
  lemma AdvanceKeeps(del: Delivery, now: int, blocked: bool, ans: Answer)
    requires DeliveryInv(del) && Fits(del, ans)
    ensures DeliveryInv(Advance(del, now, blocked, ans))
  {
    if del.pc.Decided? { AfterDesktopKeeps(del, now); }
    else if del.pc.LocalProbing? { LocalProbingKeeps(del, now, blocked, ans); }
    else if del.pc.LocalSubmitting? {
      AfterLocalKeeps(del.(writes := del.writes + Wrote(AppServer, ans.wrote)), del.pc.desktop,
                      if ans.Reply? then ans.outcome else Unexpected(AppServer, true));
    }
    else if del.pc.Reconciling? { AfterReconcileKeeps(del, now, blocked, ans); }
    else if del.pc.Releasing? { }
    else { DesktopPhaseKeeps(del, now, blocked, ans); }
  }

  // ---------- what the per-delivery invariant says about any delivery in any run ----------

  /** Desktop calls, then a Desktop end, then perhaps the app-server call and its end. */
  ghost predicate Shaped(trace: seq<Item>) {
    var n := |trace|;
    || Fresh(trace)
    || (Fresh(trace[..n - 1]) && trace[n - 1].Attempted?)
    || (n > 1 && FellBack(trace[..n - 1])
        && (trace[n - 1].Attempted? || trace[n - 1].route == AppServer))
    || (n > 2 && FellBack(trace[..n - 2])
        && trace[n - 2].Called? && trace[n - 2].route == AppServer && trace[n - 1].Attempted?)
  }

  lemma ReportedIsShaped(final: DeliveryOutcome, trace: seq<Item>, writes: seq<Write>)
    requires Reported(final, trace, writes)
    ensures Fresh(trace) || exists o :: Ended(trace, o)
  {
  }

  lemma EndedIsShaped(trace: seq<Item>, last: RouteOutcome)
    requires Ended(trace, last)
    ensures Shaped(trace)
  {
    if |trace| > 1 { assert Front(Front(trace)) == trace[..|trace| - 2]; }
  }

  lemma InvIsShaped(del: Delivery)
    requires DeliveryInv(del)
    ensures Shaped(del.trace)
  {
    match del.pc
    case Releasing(gated) =>
      if gated.Routed? { ResultIsShaped(gated.result, del); }
    case Reconciling(route, _) => EndedIsShaped(del.trace, Ambiguous(route));
    case Finished(final) => FinalIsShaped(final, del);
    case _ =>
  }

  lemma ResultIsShaped(result: RoutingResult, del: Delivery)
    requires ResultFits(result, del.trace, del.writes)
    ensures Shaped(del.trace)
  {
    if result.Settled? {
      ReportedIsShaped(result.outcome, del.trace, del.writes);
      if !Fresh(del.trace) {
        var o :| Ended(del.trace, o);
        EndedIsShaped(del.trace, o);
      }
    } else {
      EndedIsShaped(del.trace, Ambiguous(result.route));
    }
  }

  lemma FinalIsShaped(final: DeliveryOutcome, del: Delivery)
    requires FinalFits(final, del.mode, del.trace, del.writes)
    ensures Shaped(del.trace)
  {
    if Reported(final, del.trace, del.writes) {
      ResultIsShaped(Settled(final), del);
    } else {
      var o :| Ended(del.trace, o);
      EndedIsShaped(del.trace, o);
    }
  }

  predicate SafeEnd(item: Item) {
    item.Attempted? ==> item.outcome.NotSubmitted?
  }

  predicate CallOf(item: Item, route: Route) {
    item.Called? && item.route == route
  }

  ghost predicate TraceTruthful(trace: seq<Item>) {
    // An attempt that may have written is the last thing the delivery does.
    && (forall i :: 0 <= i < |trace| - 1 ==> SafeEnd(trace[i]))
    // The app-server is called only right after a Desktop end that proved no write ...
    && (forall j :: 0 <= j < |trace| && CallOf(trace[j], AppServer) ==>
          0 < j && trace[j - 1].Attempted? && MayFallback(trace[j - 1].outcome))
    // ... and no call of any adapter follows it.
    && (forall i, j :: 0 <= i < j < |trace| && CallOf(trace[i], AppServer) ==> !trace[j].Called?)
  }

  lemma ShapedIsTruthful(trace: seq<Item>)
    requires Shaped(trace)
    ensures TraceTruthful(trace)
  {
    var n := |trace|;
    if n > 0 { assert forall k :: 0 <= k < n - 1 ==> trace[..n - 1][k] == trace[k]; }
    if n > 1 {
      assert forall k :: 0 <= k < n - 2 ==> trace[..n - 2][k] == trace[k] == Front(trace[..n - 1])[k];
      assert trace[..n - 1][n - 2] == trace[n - 2];
    }
    if n > 2 {
      assert trace[..n - 2][n - 3] == trace[n - 3];
      assert forall k :: 0 <= k < n - 3 ==> Front(trace[..n - 2])[k] == trace[k];
    }
  }

  /** Confirmed by the route itself, or ambiguous there and then matched on the canonical stream. */
  ghost predicate ConfirmedWell(
    route: Route, turn: TurnId, operation: Operation, attempts: seq<Attempt>, mode: Mode, trace: seq<Item>)
  {
    || (EndsWith(trace, Confirmed(route, turn, operation)) && attempts == Attempts(trace))
    || (&& EndsWith(trace, Ambiguous(route)) && operation == OperationOf(mode)
        && attempts == Attempts(trace) + [Attempt(route, ReconcileAppServer, IsConfirmed)])
  }

  /** The reported outcome against what really happened. */
  ghost predicate HonestReport(final: DeliveryOutcome, mode: Mode, trace: seq<Item>, writes: seq<Write>) {
    match final
    case ConfirmedDesktop(turn, operation, attempts) =>
      writes == [Write(Desktop, turn)] && ConfirmedWell(Desktop, turn, operation, attempts, mode, trace)
    case ConfirmedAppServer(turn, operation, attempts) =>
      writes == [Write(AppServer, turn)] && ConfirmedWell(AppServer, turn, operation, attempts, mode, trace)
    case UnavailableDelivery(attempts) =>
      && writes == []
      && (forall i :: 0 <= i < |trace| ==> SafeEnd(trace[i]))
      && (attempts == Attempts(trace) || (Attempts(trace) == [] && final == IdleUnavailable()))
    case RejectedDelivery(route, attempts) =>
      EndsWith(trace, Rejected(route)) && attempts == Attempts(trace) && WrittenBy(route, writes)
    case AmbiguousDelivery(route, attempts) =>
      && EndsWith(trace, Ambiguous(route)) && WrittenBy(route, writes)
      && attempts == Attempts(trace) + [Attempt(route, ReconcileAppServer, IsAmbiguous)]
  }

  lemma FinishedIsHonest(final: DeliveryOutcome, mode: Mode, trace: seq<Item>, writes: seq<Write>)
    requires FinalFits(final, mode, trace, writes) && TraceTruthful(trace)
    ensures HonestReport(final, mode, trace, writes)
  {
    if Fresh(trace) { FreshHasNoAttempt(trace); }
  }

  /** At most one write, calls in the only safe order, submissions in time, and an honest final outcome. */
  ghost predicate Truthful(del: Delivery) {
    && |del.writes| <= 1
    && TraceTruthful(del.trace)
    && InTime(del.trace, del.deadline)
    && (del.pc.Finished? ==> HonestReport(del.pc.final, del.mode, del.trace, del.writes))
  }

  lemma InvIsTruthful(del: Delivery)
    requires DeliveryInv(del)
    ensures Truthful(del)
  {
    InvIsShaped(del);
    ShapedIsTruthful(del.trace);
    if del.pc.Finished? { FinishedIsHonest(del.pc.final, del.mode, del.trace, del.writes); }
  }

  // ---------- the shared state ----------

  /** Points inside the task gate. */
  predicate InGate(pc: Pc) {
    || pc.Inspecting? || pc.CheckBreaker? || pc.Probing? || pc.Connecting? || pc.Following? || pc.Submitting?
    || pc.Closing? || pc.Decided? || pc.LocalProbing? || pc.LocalSubmitting? || pc.Releasing?
  }

  /** Points past the breaker check at which the Desktop round may still become ambiguous. */
  predicate PastBreaker(pc: Pc) {
    || pc.Probing? || pc.Connecting? || pc.Following? || pc.Submitting? || pc.Closing?
    || AmbiguityPending(pc)
  }

  /** The delivery can no longer start a Desktop round. */
  predicate RoundsOver(pc: Pc) {
    || (pc.Releasing? && pc.gated.Routed? && pc.gated.result.PendingReconciliation?)
    || pc.Reconciling?
    || pc.Finished?
  }

  /** What one step of a delivery may do to the shared state. */
  ghost predicate Flow(del: Delivery, after: Delivery, blocked: bool, ans: Answer) {
    && after.task == del.task
    && (InGate(after.pc) <==> !del.pc.Releasing? && (InGate(del.pc) || del.pc.AwaitingGate?))
    && (PastBreaker(after.pc) ==> PastBreaker(del.pc) || (del.pc.CheckBreaker? && !blocked))
    && (AmbiguityPending(del.pc) && del.pc.Decided? ==> RoundsOver(after.pc))
    && (AmbiguityPending(del.pc) && !del.pc.Decided? ==> AmbiguityPending(after.pc))
    && (RoundsOver(del.pc) ==> RoundsOver(after.pc))
    && (RoundsOver(del.pc) ==> !AmbiguityPending(after.pc))
    && (del.pc.Reconciling? ==> after.pc.Finished?)
    && !del.pc.Finished?
    && !(after.pc.Submitting? && del.pc.Following? && AmbiguityPending(after.pc))
  }

  lemma AdvanceFlows(del: Delivery, now: int, blocked: bool, ans: Answer)
    requires Fits(del, ans) && (del.pc.Closing? && AmbiguityPending(del.pc) ==> del.pc.submitted)
    ensures Flow(del, Advance(del, now, blocked, ans), blocked, ans)
  {
  }

  lemma InvFlows(del: Delivery, now: int, blocked: bool, ans: Answer)
    requires DeliveryInv(del) && Fits(del, ans)
    ensures Flow(del, Advance(del, now, blocked, ans), blocked, ans)
  {
    hide Flow, Advance, Fits;
    AdvanceFlows(del, now, blocked, ans);
  }

  ghost predicate GateInv(s: State) {
    && (forall d :: d in s.deliveries && InGate(s.deliveries[d].pc) ==>
          s.deliveries[d].task in s.holder && s.holder[s.deliveries[d].task] == d)
    && (forall t :: t in s.holder ==>
          && s.holder[t] in s.deliveries
          && s.deliveries[s.holder[t]].task == t
          && InGate(s.deliveries[s.holder[t]].pc))
  }

  ghost predicate BreakerInv(s: State) {
    BreakersNamed(s) && LogNamed(s)
  }

  /** Every breaker names a delivery whose ambiguous Desktop write on that task is not reconciled. */
  ghost predicate BreakersNamed(s: State) {
    && (forall t :: t in s.breakers ==>
          && s.breakers[t] in s.deliveries
          && s.deliveries[s.breakers[t]].task == t
          && RoundsOver(s.deliveries[s.breakers[t]].pc)
          && AmbiguousWrite(t, s.breakers[t]) in s.log)
    && (forall d :: d in s.deliveries && PastBreaker(s.deliveries[d].pc) ==> s.deliveries[d].task !in s.breakers)
  }

  /** What the log says of a delivery fits where that delivery stands. */
  ghost predicate LogNamed(s: State) {
    && (forall d :: d in s.deliveries && AmbiguityPending(s.deliveries[d].pc) ==>
          AmbiguousWrite(s.deliveries[d].task, d) in s.log)
    && (forall i :: 0 <= i < |s.log| ==> s.log[i].delivery in s.deliveries)
    && (forall i :: 0 <= i < |s.log| && s.log[i].Reconciled? ==>
          && s.deliveries[s.log[i].delivery].pc.Finished?
          && (s.log[i].task in s.breakers ==> s.breakers[s.log[i].task] != s.log[i].delivery))
  }

  ghost predicate ReconciledBetween(log: seq<Entry>, i: int, end: int, t: ThreadId, d: DeliveryId) {
    exists k :: i < k < end && 0 <= k < |log| && log[k] == Reconciled(t, d)
  }

  /** An ambiguous Desktop write that still stands between its task and Desktop. */
  ghost predicate Guarded(s: State, t: ThreadId, d: DeliveryId) {
    || (t in s.breakers && s.breakers[t] == d)
    || (d in s.deliveries && s.deliveries[d].task == t && AmbiguityPending(s.deliveries[d].pc))
  }

  ghost predicate LogInv(s: State) {
    forall i :: 0 <= i < |s.log| && s.log[i].AmbiguousWrite? ==>
      || ReconciledBetween(s.log, i, |s.log|, s.log[i].task, s.log[i].delivery)
      || Guarded(s, s.log[i].task, s.log[i].delivery)
  }

  /** No Desktop submit follows an ambiguous Desktop write on its task before that very write is reconciled. */
  ghost predicate BreakerRespected(log: seq<Entry>) {
    forall i, j :: 0 <= i < j < |log| && log[i].AmbiguousWrite? && log[j] == DesktopSubmit(log[i].task, log[j].delivery)
      ==> ReconciledBetween(log, i, j, log[i].task, log[i].delivery)
  }

  ghost predicate Inv(s: State) {
    && (forall d :: d in s.deliveries ==> DeliveryInv(s.deliveries[d]))
    && GateInv(s)
    && BreakerInv(s)
    && LogInv(s)
    && BreakerRespected(s.log)
  }

  /** The shared part of a step, for any delivery step that flows. */
  ghost predicate Commits(s: State, s': State, d: DeliveryId, after: Delivery, ans: Answer) {
    && d in s.deliveries
    && (var del := s.deliveries[d];
        && Flow(del, after, del.task in s.breakers, ans)
        && (del.pc.AwaitingGate? ==> del.task !in s.holder)
        && s'.deliveries == s.deliveries[d := after]
        && s'.holder == Holder(s, d, del)
        && s'.breakers == Breakers(s, d, del, ans)
        && s'.log == s.log + Entries(d, del, after, ans))
  }

  lemma CommitKeepsGate(s: State, s': State, d: DeliveryId, after: Delivery, ans: Answer)
    requires GateInv(s) && Commits(s, s', d, after, ans)
    ensures GateInv(s')
  {
  }

  lemma CommitKeepsBreaker(s: State, s': State, d: DeliveryId, after: Delivery, ans: Answer)
    requires GateInv(s) && BreakerInv(s) && Commits(s, s', d, after, ans)
    ensures BreakerInv(s')
  {
    CommitKeepsBreakers(s, s', d, after, ans);
    CommitKeepsLogNames(s, s', d, after, ans);
  }

  lemma CommitKeepsBreakers(s: State, s': State, d: DeliveryId, after: Delivery, ans: Answer)
    requires GateInv(s) && BreakersNamed(s) && LogNamed(s) && Commits(s, s', d, after, ans)
    ensures BreakersNamed(s')
  {
  }

  lemma CommitKeepsLogNames(s: State, s': State, d: DeliveryId, after: Delivery, ans: Answer)
    requires LogNamed(s) && Commits(s, s', d, after, ans)
    ensures LogNamed(s')
  {
  }

  lemma CommitKeepsLog(s: State, s': State, d: DeliveryId, after: Delivery, ans: Answer)
    requires GateInv(s) && BreakerInv(s) && LogInv(s) && Commits(s, s', d, after, ans)
    ensures LogInv(s')
  {
    hide GateInv, LogNamed;
    forall i | 0 <= i < |s'.log| && s'.log[i].AmbiguousWrite?
      ensures || ReconciledBetween(s'.log, i, |s'.log|, s'.log[i].task, s'.log[i].delivery)
              || Guarded(s', s'.log[i].task, s'.log[i].delivery)
    {
      var t, a := s'.log[i].task, s'.log[i].delivery;
      if i < |s.log| && ReconciledBetween(s.log, i, |s.log|, t, a) {
        var k :| i < k < |s.log| && s.log[k] == Reconciled(t, a);
        assert s'.log[k] == Reconciled(t, a);
      } else if i < |s.log| {
        GuardHolds(s, s', d, after, ans, t, a);
        if !Guarded(s', t, a) { assert s'.log[|s.log|] == Reconciled(t, a); }
      }
    }
  }

  /** A guard only falls by the reconciliation of its own delivery. */
  lemma GuardHolds(
    s: State, s': State, d: DeliveryId, after: Delivery, ans: Answer, t: ThreadId, a: DeliveryId)
    requires BreakersNamed(s) && Commits(s, s', d, after, ans) && Guarded(s, t, a)
    ensures Guarded(s', t, a) || (s'.log == s.log + [Reconciled(t, a)])
  {
  }

  lemma CommitRespectsBreaker(s: State, s': State, d: DeliveryId, after: Delivery, ans: Answer)
    requires GateInv(s) && BreakerInv(s) && LogInv(s) && BreakerRespected(s.log) && Commits(s, s', d, after, ans)
    ensures BreakerRespected(s'.log)
  {
    forall i, j | 0 <= i < j < |s'.log| && s'.log[i].AmbiguousWrite?
                  && s'.log[j] == DesktopSubmit(s'.log[i].task, s'.log[j].delivery)
      ensures ReconciledBetween(s'.log, i, j, s'.log[i].task, s'.log[i].delivery)
    {
      var t, a := s'.log[i].task, s'.log[i].delivery;
      assert s'.log[i] == s.log[i];
      if j < |s.log| { assert ReconciledBetween(s.log, i, j, t, a); }
      else { assert !Guarded(s, t, a); }
      var k :| i < k < j && k < |s.log| && s.log[k] == Reconciled(t, a);
      assert s'.log[k] == Reconciled(t, a);
    }
  }

  lemma SpawnIsFresh(task: ThreadId, mode: Mode, now: int, turnTimeout: int)
    ensures DeliveryInv(Spawn(task, mode, now, turnTimeout))
  {
  }

  /** A new delivery joins, before any gate. */
  ghost predicate Joins(s: State, s': State, d: DeliveryId, added: Delivery) {
    && d !in s.deliveries && (added.pc.CheckDeadline? || added.pc.AwaitingGate?)
    && s'.deliveries == s.deliveries[d := added]
    && s'.holder == s.holder && s'.breakers == s.breakers && s'.log == s.log
  }

  lemma JoiningKeepsGate(s: State, s': State, d: DeliveryId, added: Delivery)
    requires GateInv(s) && Joins(s, s', d, added)
    ensures GateInv(s')
  {
  }

  lemma JoiningKeepsBreaker(s: State, s': State, d: DeliveryId, added: Delivery)
    requires BreakerInv(s) && Joins(s, s', d, added)
    ensures BreakerInv(s')
  {
  }

  lemma JoiningKeepsLog(s: State, s': State, d: DeliveryId, added: Delivery)
    requires LogInv(s) && Joins(s, s', d, added)
    ensures LogInv(s')
  {
    forall i | 0 <= i < |s.log| && s.log[i].AmbiguousWrite? && Guarded(s, s.log[i].task, s.log[i].delivery)
      ensures Guarded(s', s.log[i].task, s.log[i].delivery) {}
  }

  lemma StepKeeps(s: State, e: Event)
    requires Inv(s) && Enabled(s, e)
    ensures Inv(Step(s, e))
  {
    hide GateInv, BreakerInv, LogInv, BreakerRespected, DeliveryInv;
    var s' := Step(s, e);
    if e.Take? {
      var del := s.deliveries[e.delivery];
      var after := Advance(del, e.now, del.task in s.breakers, e.ans);
      AdvanceKeeps(del, e.now, del.task in s.breakers, e.ans);
      InvFlows(del, e.now, del.task in s.breakers, e.ans);
      CommitKeepsGate(s, s', e.delivery, after, e.ans);
      CommitKeepsBreaker(s, s', e.delivery, after, e.ans);
      CommitKeepsLog(s, s', e.delivery, after, e.ans);
      CommitRespectsBreaker(s, s', e.delivery, after, e.ans);
    } else {
      SpawnIsFresh(e.task, e.mode, e.now, e.turnTimeout);
      JoiningKeepsGate(s, s', e.delivery, Spawn(e.task, e.mode, e.now, e.turnTimeout));
      JoiningKeepsBreaker(s, s', e.delivery, Spawn(e.task, e.mode, e.now, e.turnTimeout));
      JoiningKeepsLog(s, s', e.delivery, Spawn(e.task, e.mode, e.now, e.turnTimeout));
    }
  }

  lemma {:induction false} RunKeeps(states: seq<State>, events: seq<Event>, i: nat)
    requires Run(states, events) && i < |states|
    ensures Inv(states[i])
  {
    if i > 0 {
      RunKeeps(states, events, i - 1);
      assert Enabled(states[i - 1], events[i - 1]);
      StepKeeps(states[i - 1], events[i - 1]);
    }
  }

  // ---------- main results ----------

  /** In every interleaving, every delivery writes at most once and reports what really happened. */
  lemma AtMostOneWrite(states: seq<State>, events: seq<Event>, i: nat, d: DeliveryId)
    requires Run(states, events) && i < |states| && d in states[i].deliveries
    ensures Truthful(states[i].deliveries[d])
  {
    RunKeeps(states, events, i);
    InvIsTruthful(states[i].deliveries[d]);
  }

  /** In every interleaving, an ambiguous Desktop write shuts Desktop for its task until it is reconciled itself. */
  lemma BreakerHolds(states: seq<State>, events: seq<Event>, i: nat)
    requires Run(states, events) && i < |states|
    ensures BreakerRespected(states[i].log)
  {
    RunKeeps(states, events, i);
  }

  /** At most one delivery of a task is between taking and releasing the task gate. */
  lemma OneMutationPerTask(states: seq<State>, events: seq<Event>, i: nat, a: DeliveryId, b: DeliveryId)
    requires Run(states, events) && i < |states|
    requires a in states[i].deliveries && b in states[i].deliveries
    requires InGate(states[i].deliveries[a].pc) && InGate(states[i].deliveries[b].pc)
    requires states[i].deliveries[a].task == states[i].deliveries[b].task
    ensures a == b
  {
    RunKeeps(states, events, i);
  }

  /** A step only touches its own delivery and its own task, and never replaces another delivery's breaker. */
  lemma StepIsLocal(states: seq<State>, events: seq<Event>, i: nat, t: ThreadId)
    requires Run(states, events) && i < |events| && events[i].Take?
    ensures var s, s', d := states[i], states[i + 1], events[i].delivery;
            && (forall o :: o in s.deliveries && o != d ==> o in s'.deliveries && s'.deliveries[o] == s.deliveries[o])
            && (t != s.deliveries[d].task ==>
                  && (t in s'.breakers <==> t in s.breakers)
                  && (t in s.breakers ==> s'.breakers[t] == s.breakers[t]))
            && (t in s.breakers && t in s'.breakers ==> s'.breakers[t] == s.breakers[t])
            && (t in s.breakers && t !in s'.breakers ==> s.breakers[t] == d && events[i].ans.Matched?)
  {
    hide DeliveryInv, LogInv, BreakerRespected, GateInv, LogNamed, Advance, Entries;
    RunKeeps(states, events, i);
    assert Enabled(states[i], events[i]);
  }

  /** Desktop is called exactly when it just reported, before the deadline, the activity the mode needs. */
  lemma DesktopCalledExactlyWhen(del: Delivery, now: int, blocked: bool, ans: Answer)
    requires Fits(del, ans)
    ensures Advance(del, now, blocked, ans).trace == del.trace + [Called(Desktop, now)]
            <==> && del.pc.Following? && ans.Followed? && now < del.deadline
                 && ans.activity == if del.mode == QueueMode then Idle else Active
  {
    var after := Advance(del, now, blocked, ans);
    if |after.trace| > |del.trace| {
      assert after.trace[|del.trace|] == Called(Desktop, now) <==> del.pc.Following?;
    }
  }

  /** While the breaker stands, a delivery at the breaker check ends its Desktop round without calling Desktop,
      and unless its deadline passed goes on to the app-server. */
  lemma BreakerFallsBack(del: Delivery, now: int, later: int)
    requires del.pc == CheckBreaker
    ensures var decided := Advance(del, now, true, Proceed);
            var next := Advance(decided, later, true, Proceed);
            && decided.trace == del.trace && decided.writes == del.writes
            && (later < del.deadline ==> next.pc.LocalProbing?)
            && (later >= del.deadline ==> next.pc.Releasing? && next.pc.gated.Routed?)
            && next.trace == del.trace + [Attempted(NotSubmitted(Desktop, Unavailable))]
  {
    FallbackIffSafe(NotSubmitted(Desktop, Unavailable));
  }

  // ---------- Desktop calls over whole runs ----------

  /** A delivery learns in time that its task was followed and has the activity its mode needs. */
  predicate FittingFollow(s: State, e: Event) {
    && e.Take? && e.delivery in s.deliveries
    && var del := s.deliveries[e.delivery];
       && del.pc.Following? && e.ans.Followed? && e.now < del.deadline
       && e.ans.activity == if del.mode == QueueMode then Idle else Active
  }

  /** The Desktop submit that this event calls. */
  function SubmitOf(s: State, e: Event): Entry
    requires FittingFollow(s, e)
  {
    DesktopSubmit(s.deliveries[e.delivery].task, e.delivery)
  }

  /** What a step adds to the log is a Desktop submit exactly if it is a fitting follow. */
  lemma StepLogs(s: State, e: Event)
    requires Enabled(s, e)
    ensures FittingFollow(s, e) ==> Step(s, e).log == s.log + [SubmitOf(s, e)]
    ensures !FittingFollow(s, e) ==>
              || Step(s, e).log == s.log
              || exists entry :: Step(s, e).log == s.log + [entry] && !entry.DesktopSubmit?
  {
    if e.Take? {
      var del := s.deliveries[e.delivery];
      assert Advance(del, e.now, del.task in s.breakers, e.ans).pc.Submitting? ==>
          FittingFollow(s, e) || !del.pc.Following?;
      if Entries(e.delivery, del, Advance(del, e.now, del.task in s.breakers, e.ans), e.ans) == [] {
        assert s.log + [] == s.log;
      }
    }
  }

  lemma {:induction false} LogGrows(states: seq<State>, events: seq<Event>, i: nat, j: nat)
    requires Run(states, events) && i <= j < |states|
    ensures states[i].log <= states[j].log
  {
    hide Step, FittingFollow;
    if i < j {
      LogGrows(states, events, i, j - 1);
      assert Enabled(states[j - 1], events[j - 1]) && states[j] == Step(states[j - 1], events[j - 1]);
      StepLogs(states[j - 1], events[j - 1]);
    }
  }

  /** In every run, a Desktop submit in the log was called by one event: a fitting follow before the deadline of the
      delivery that the log names. */
  lemma {:induction false} LoggedSubmitFits(states: seq<State>, events: seq<Event>, i: nat, k: nat) returns (j: nat)
    requires Run(states, events) && i < |states| && k < |states[i].log| && states[i].log[k].DesktopSubmit?
    ensures j < i && |states[j].log| == k
    ensures FittingFollow(states[j], events[j]) && states[i].log[k] == SubmitOf(states[j], events[j])
  {
    hide Step, FittingFollow;
    assert i > 0;
    var s, e := states[i - 1], events[i - 1];
    assert Enabled(s, e) && states[i] == Step(s, e);
    StepLogs(s, e);
    if k < |s.log| {
      j := LoggedSubmitFits(states, events, i - 1, k);
    } else {
      j := i - 1;
      assert FittingFollow(s, e);
    }
  }

  /** In every run Desktop is called exactly by the fitting follows: every Desktop submit in the log is one's, and every
      one has its own. */
  lemma DesktopLoggedExactlyBy(states: seq<State>, events: seq<Event>, i: nat)
    requires Run(states, events) && i < |states|
    ensures forall k :: 0 <= k < |states[i].log| && states[i].log[k].DesktopSubmit? ==>
              exists j :: 0 <= j < i && |states[j].log| == k && FittingFollow(states[j], events[j])
                          && states[i].log[k] == SubmitOf(states[j], events[j])
    ensures forall j :: 0 <= j < i && FittingFollow(states[j], events[j]) ==>
              |states[j].log| < |states[i].log| && states[i].log[|states[j].log|] == SubmitOf(states[j], events[j])
  {
    hide Step, FittingFollow;
    forall k | 0 <= k < |states[i].log| && states[i].log[k].DesktopSubmit?
      ensures exists j :: 0 <= j < i && |states[j].log| == k && FittingFollow(states[j], events[j])
                          && states[i].log[k] == SubmitOf(states[j], events[j])
    {
      var j := LoggedSubmitFits(states, events, i, k);
    }
    forall j | 0 <= j < i && FittingFollow(states[j], events[j])
      ensures |states[j].log| < |states[i].log| && states[i].log[|states[j].log|] == SubmitOf(states[j], events[j])
    {
      assert Enabled(states[j], events[j]) && states[j + 1] == Step(states[j], events[j]);
      StepLogs(states[j], events[j]);
      LogGrows(states, events, j + 1, i);
    }
  }

  /** In every run: while a task's breaker stands, no delivery of that task calls Desktop. */
  lemma {:induction false} BreakerShutsDesktop(states: seq<State>, events: seq<Event>, i: nat, j: nat, t: ThreadId)
    requires Run(states, events) && i <= j < |states|
    requires forall m :: i <= m < j ==> t in states[m].breakers
    ensures states[i].log <= states[j].log
    ensures forall k :: |states[i].log| <= k < |states[j].log| && states[j].log[k].DesktopSubmit? ==>
              states[j].log[k].task != t
  {
    hide Step, Inv;
    if i < j {
      var s, e := states[j - 1], events[j - 1];
      BreakerShutsDesktop(states, events, i, j - 1, t);
      assert Enabled(s, e) && states[j] == Step(s, e);
      StepLogs(s, e);
      RunKeeps(states, events, j - 1);
      if FittingFollow(s, e) { FollowsNoBreaker(s, e); }
    }
  }

  /** A delivery that follows its task found no breaker, and none appeared since. */
  lemma FollowsNoBreaker(s: State, e: Event)
    requires Inv(s) && FittingFollow(s, e)
    ensures s.deliveries[e.delivery].task !in s.breakers
  {
    hide DeliveryInv, GateInv, LogNamed, LogInv, BreakerRespected;
  }

  /** Only its own steps change a delivery. */
  lemma {:induction false} OnlyItsStepsChangeIt(
    states: seq<State>, events: seq<Event>, i: nat, j: nat, d: DeliveryId)
    requires Run(states, events) && i <= j < |states| && d in states[i].deliveries
    requires forall m :: i <= m < j ==> !(events[m].Take? && events[m].delivery == d)
    ensures d in states[j].deliveries && states[j].deliveries[d] == states[i].deliveries[d]
  {
    hide Advance, Entries, Breakers, Holder;
    if i < j {
      OnlyItsStepsChangeIt(states, events, i, j - 1, d);
      assert Enabled(states[j - 1], events[j - 1]) && states[j] == Step(states[j - 1], events[j - 1]);
    }
  }

  /** In every run, a delivery that checks the breaker while its task has one ends this Desktop round unsubmitted with
      its next step, whatever happened in between, and goes on to the app-server unless its deadline passed. */
  lemma BlockedDeliveryFallsBack(states: seq<State>, events: seq<Event>, i: nat, j: nat, d: DeliveryId)
    requires Run(states, events) && i < j < |events|
    requires events[i].Take? && events[i].delivery == d && events[j].Take? && events[j].delivery == d
    requires forall m :: i < m < j ==> !(events[m].Take? && events[m].delivery == d)
    requires d in states[i].deliveries && states[i].deliveries[d].pc.CheckBreaker?
    requires states[i].deliveries[d].task in states[i].breakers
    ensures d in states[j + 1].deliveries
    ensures var del, after := states[i].deliveries[d], states[j + 1].deliveries[d];
            && after.trace == del.trace + [Attempted(NotSubmitted(Desktop, Unavailable))] && after.writes == del.writes
            && (events[j].now < del.deadline ==> after.pc.LocalProbing?)
            && (events[j].now >= del.deadline ==> after.pc.Releasing? && after.pc.gated.Routed?)
  {
    hide Entries, Breakers, Holder, MayFallback;
    var del := states[i].deliveries[d];
    assert Enabled(states[i], events[i]) && states[i + 1] == Step(states[i], events[i]);
    assert events[i].ans == Proceed;
    assert states[i + 1].deliveries[d] == Advance(del, events[i].now, true, Proceed);
    OnlyItsStepsChangeIt(states, events, i + 1, j, d);
    assert Enabled(states[j], events[j]) && states[j + 1] == Step(states[j], events[j]);
    BreakerFallsBack(del, events[i].now, events[j].now);
  }
}
