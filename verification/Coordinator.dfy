/**
 * The delivery coordinator as a transition system. Each delivery is a program
 * counter over the points where the original can be interleaved; every answer
 * of an adapter, a clock or a stream is chosen by the environment.
 */
module Coordinator {
  import opened Types
  import opened Routing

  datatype Activity = Idle | Active | MultipleActive

  datatype Status = Available | StatusIncompatible | StatusUnavailable

  /** What Desktop told the coordinator: an outcome, or activity the canonical stream must see complete. */
  datatype Decision = Outcome(outcome: RouteOutcome) | Busy

  datatype GatedResult = RetryIdle(requireActivity: bool) | Routed(result: RoutingResult)

  datatype Pc =
    | CheckDeadline
    | AwaitingIdle
    | AwaitingGate
    | Inspecting
    | CheckBreaker
    | Probing
    | Connecting
    | Following
    | Submitting
    | Closing(decision: Decision, submitted: bool)
    | Decided(decision: Decision)
    | LocalProbing(desktop: RouteOutcome)
    | LocalSubmitting(desktop: RouteOutcome)
    | Releasing(gated: GatedResult)
    | AwaitingCycle
    | Reconciling(route: Route, attempts: seq<Attempt>)
    | Finished(final: DeliveryOutcome)

  /** One observable action of a delivery: an adapter's submit is called, or a route attempt ends. */
  datatype Item = Called(route: Route, at: int) | Attempted(outcome: RouteOutcome)

  /** A write that really reached the task: the route that made it and the turn that carries it. */
  datatype Write = Write(route: Route, turn: TurnId)

  /** `trace` and `writes` are the observer's record: what was called, and what was written. */
  datatype Delivery = Delivery(
    task: ThreadId, mode: Mode, deadline: int, pc: Pc, trace: seq<Item>, writes: seq<Write>)

  /** One answer of the environment to the call a delivery is waiting on. */
  datatype Answer =
    | Proceed
    | TimedOut
    | Failed(reason: Reason)
    | Defect(wrote: Option<TurnId>)
    | Status(status: Status)
    | Followed(activity: Activity)
    | Reply(outcome: RouteOutcome, wrote: Option<TurnId>)
    | Inspected(active: bool)
    | Matched(turn: TurnId)

  function Timeout(route: Route): RouteOutcome {
    NotSubmitted(route, Unavailable)
  }

  function StatusOutcome(route: Route, status: Status): RouteOutcome {
    NotSubmitted(route, if status == StatusIncompatible then Incompatible else Unavailable)
  }

  /** The adapter contract: a non-submission wrote nothing and a confirmation names the turn it wrote. */
  predicate Honest(outcome: RouteOutcome, wrote: Option<TurnId>, route: Route) {
    && outcome.route == route
    && (outcome.NotSubmitted? ==> wrote.None?)
    && (outcome.Confirmed? ==> wrote == Some(outcome.turn))
  }

  /** Which answers the environment may give at each point. */
  predicate Fits(del: Delivery, ans: Answer) {
    match del.pc
    case CheckDeadline | AwaitingGate | CheckBreaker | Decided(_) | Releasing(_) => ans.Proceed?
    case AwaitingIdle | AwaitingCycle => ans.Proceed? || ans.TimedOut?
    case Inspecting => ans.Inspected? || ans.TimedOut?
    case Probing | LocalProbing(_) => ans.Status? || ans.TimedOut? || ans == Defect(None)
    case Connecting => ans.Proceed? || ans.TimedOut? || FailedFits(ans) || ans == Defect(None)
    case Following => ans.Followed? || ans.TimedOut? || FailedFits(ans) || ans == Defect(None)
    case Submitting => ReplyFits(ans, Desktop)
    case LocalSubmitting(_) => ReplyFits(ans, AppServer)
    case Closing(_, _) => ans.Proceed? || ans == Defect(None)
    // A canonical turn carries the delivery identity only if a route wrote it there.
    case Reconciling(_, _) =>
      ans.TimedOut? || (ans.Matched? && exists k :: 0 <= k < |del.writes| && del.writes[k].turn == ans.turn)
    case Finished(_) => false
  }

  /** A typed Desktop failure maps to one of three reasons. */
  predicate FailedFits(ans: Answer) {
    ans.Failed? && ans.reason in [Incompatible, Unavailable, PreSubmitFailure]
  }

  predicate ReplyFits(ans: Answer, route: Route) {
    ans.Defect? || (ans.Reply? && Honest(ans.outcome, ans.wrote, route))
  }

  function Wrote(route: Route, wrote: Option<TurnId>): seq<Write> {
    if wrote.Some? then [Write(route, wrote.value)] else []
  }

  function OperationOf(mode: Mode): Operation {
    if mode == QueueMode then Start else Steer
  }

  /** `submitDesktop` after the task was followed: the last checks, then the possible-write region. */
  function AfterFollow(del: Delivery, now: int, activity: Activity): Delivery {
    if del.mode == SteerMode && activity == MultipleActive then
      del.(pc := Closing(Outcome(NotSubmitted(Desktop, TaskBusy)), false))
    else if del.mode == SteerMode && activity == Idle then
      del.(pc := Closing(Outcome(NotSubmitted(Desktop, PreSubmitFailure)), false))
    else if del.mode == QueueMode && activity != Idle then
      del.(pc := Closing(Busy, false))
    else if now >= del.deadline then
      del.(pc := Closing(Outcome(Timeout(Desktop)), false))
    else
      del.(pc := Submitting, trace := del.trace + [Called(Desktop, now)])
  }

  /** `route` once Desktop decided: retry, stop, or fall back. */
  function AfterDesktop(del: Delivery, now: int, decision: Decision): Delivery {
    if decision.Busy? then del.(pc := Releasing(RetryIdle(true)))
    else
      var outcome := decision.outcome;
      if del.mode == QueueMode && outcome.NotSubmitted? && outcome.reason == TaskBusy then
        del.(pc := Releasing(RetryIdle(true)))
      else
        var traced := del.(trace := del.trace + [Attempted(outcome)]);
        if !MayFallback(outcome) || now >= del.deadline then
          traced.(pc := Releasing(Routed(RouteResult(outcome, [AttemptOf(outcome)]))))
        else
          traced.(pc := LocalProbing(outcome))
  }

  /** `route` once the app-server attempt ended. */
  function AfterLocal(del: Delivery, desktop: RouteOutcome, outcome: RouteOutcome): Delivery {
    del.(trace := del.trace + [Attempted(outcome)],
         pc := Releasing(Routed(RouteResult(outcome, [AttemptOf(desktop), AttemptOf(outcome)]))))
  }

  /** What follows once the task gate was released. */
  function AfterGate(mode: Mode, gated: GatedResult): Pc {
    match gated
    case RetryIdle(requireActivity) =>
      if mode == SteerMode then Finished(IdleUnavailable())
      else if requireActivity then AwaitingCycle
      else CheckDeadline
    case Routed(Settled(outcome)) => Finished(outcome)
    case Routed(PendingReconciliation(route, attempts)) => Reconciling(route, attempts)
  }

  function AfterReconcile(mode: Mode, route: Route, attempts: seq<Attempt>, ans: Answer): DeliveryOutcome {
    if ans.Matched? then
      ConfirmedBy(route, ans.turn, OperationOf(mode),
                  attempts + [Attempt(route, ReconcileAppServer, IsConfirmed)])
    else
      AmbiguousDelivery(route, attempts + [Attempt(route, ReconcileAppServer, IsAmbiguous)])
  }

  /** One step of one delivery; `blocked` says whether a breaker entry exists for its task. */
  function Advance(del: Delivery, now: int, blocked: bool, ans: Answer): Delivery
    requires Fits(del, ans)
  {
    match del.pc
    case CheckDeadline =>
      del.(pc := if now >= del.deadline then Finished(IdleUnavailable()) else AwaitingIdle)
    case AwaitingIdle =>
      del.(pc := if ans.Proceed? then AwaitingGate else Finished(IdleUnavailable()))
    case AwaitingGate =>
      del.(pc := if del.mode == QueueMode then Inspecting else CheckBreaker)
    case Inspecting =>
      del.(pc := if ans.TimedOut? then Releasing(Routed(Settled(IdleUnavailable())))
                 else if ans.active then Releasing(RetryIdle(false))
                 else CheckBreaker)
    case CheckBreaker =>
      del.(pc := if blocked then Decided(Outcome(NotSubmitted(Desktop, Unavailable))) else Probing)
    case Probing =>
      del.(pc := if ans.TimedOut? then Decided(Outcome(Timeout(Desktop)))
                 else if ans.Defect? then Decided(Outcome(Unexpected(Desktop, false)))
                 else if ans.status != Available then Decided(Outcome(StatusOutcome(Desktop, ans.status)))
                 else Connecting)
    case Connecting =>
      del.(pc := if ans.TimedOut? then Closing(Outcome(Timeout(Desktop)), false)
                 else if ans.Failed? then Closing(Outcome(NotSubmitted(Desktop, ans.reason)), false)
                 else if ans.Defect? then Closing(Outcome(Unexpected(Desktop, false)), false)
                 else Following)
    case Following =>
      if ans.Followed? then AfterFollow(del, now, ans.activity)
      else
        del.(pc := if ans.TimedOut? then Closing(Outcome(Timeout(Desktop)), false)
                   else if ans.Failed? then Closing(Outcome(NotSubmitted(Desktop, ans.reason)), false)
                   else Closing(Outcome(Unexpected(Desktop, false)), false))
    case Submitting =>
      del.(pc := Closing(Outcome(if ans.Reply? then ans.outcome else Unexpected(Desktop, true)), true),
           writes := del.writes + Wrote(Desktop, ans.wrote))
    case Closing(decision, submitted) =>
      // A finalizer that dies overrides whatever the scope had decided.
      del.(pc := Decided(if ans.Defect? then Outcome(Unexpected(Desktop, submitted)) else decision))
    case Decided(decision) => AfterDesktop(del, now, decision)
    case LocalProbing(desktop) =>
      if ans.TimedOut? then AfterLocal(del, desktop, Timeout(AppServer))
      else if ans.Defect? then AfterLocal(del, desktop, Unexpected(AppServer, false))
      else if ans.status != Available then AfterLocal(del, desktop, StatusOutcome(AppServer, ans.status))
      else if now >= del.deadline then AfterLocal(del, desktop, Timeout(AppServer))
      else del.(pc := LocalSubmitting(desktop), trace := del.trace + [Called(AppServer, now)])
    case LocalSubmitting(desktop) =>
      AfterLocal(del.(writes := del.writes + Wrote(AppServer, ans.wrote)), desktop,
                 if ans.Reply? then ans.outcome else Unexpected(AppServer, true))
    case Releasing(gated) => del.(pc := AfterGate(del.mode, gated))
    case AwaitingCycle =>
      del.(pc := if ans.Proceed? then CheckDeadline else Finished(IdleUnavailable()))
    case Reconciling(route, attempts) =>
      del.(pc := Finished(AfterReconcile(del.mode, route, attempts, ans)))
  }

  /** The shared record of breaker-relevant actions, in the order they happened. */
  datatype Entry =
    | DesktopSubmit(task: ThreadId, delivery: DeliveryId)
    | AmbiguousWrite(task: ThreadId, delivery: DeliveryId)
    | Reconciled(task: ThreadId, delivery: DeliveryId)

  datatype State = State(
    now: int,
    deliveries: map<DeliveryId, Delivery>,
    holder: map<ThreadId, DeliveryId>,
    breakers: map<ThreadId, DeliveryId>,
    log: seq<Entry>)

  datatype Event =
    | Deliver(delivery: DeliveryId, task: ThreadId, mode: Mode, now: int, turnTimeout: int)
    | Take(delivery: DeliveryId, now: int, ans: Answer)

  function Init(now: int): State {
    State(now, map[], map[], map[], [])
  }

  predicate Enabled(s: State, e: Event) {
    s.now <= e.now &&
    match e
    case Deliver(d, _, _, _, _) => d !in s.deliveries
    case Take(d, _, ans) =>
      && d in s.deliveries
      && Fits(s.deliveries[d], ans)
      && (s.deliveries[d].pc.AwaitingGate? ==> s.deliveries[d].task !in s.holder)
  }

  function Spawn(task: ThreadId, mode: Mode, now: int, turnTimeout: int): Delivery {
    Delivery(task, mode, now + (if turnTimeout < 1 then 1 else turnTimeout),
             if mode == QueueMode then CheckDeadline else AwaitingGate, [], [])
  }

  /** A Desktop write that ended ambiguous but has not reached the breaker map yet. */
  predicate AmbiguityPending(pc: Pc) {
    || (pc.Closing? && pc.decision.Outcome? && pc.decision.outcome.Ambiguous?)
    || (pc.Decided? && pc.decision.Outcome? && pc.decision.outcome.Ambiguous?)
  }

  function Entries(d: DeliveryId, before: Delivery, after: Delivery, ans: Answer): seq<Entry> {
    if before.pc.Following? && after.pc.Submitting? then [DesktopSubmit(before.task, d)]
    else if !AmbiguityPending(before.pc) && AmbiguityPending(after.pc) then [AmbiguousWrite(before.task, d)]
    else if before.pc.Reconciling? && ans.Matched? then [Reconciled(before.task, d)]
    else []
  }

  function Holder(s: State, d: DeliveryId, del: Delivery): map<ThreadId, DeliveryId> {
    if del.pc.AwaitingGate? then s.holder[del.task := d]
    else if del.pc.Releasing? then s.holder - {del.task}
    else s.holder
  }

  function Breakers(s: State, d: DeliveryId, del: Delivery, ans: Answer): map<ThreadId, DeliveryId> {
    if del.pc.Decided? && AmbiguityPending(del.pc) then s.breakers[del.task := d]
    else if del.pc.Reconciling? && ans.Matched? && del.task in s.breakers && s.breakers[del.task] == d then
      s.breakers - {del.task}
    else s.breakers
  }

  function Step(s: State, e: Event): State
    requires Enabled(s, e)
  {
    match e
    case Deliver(d, task, mode, now, turnTimeout) =>
      s.(now := now, deliveries := s.deliveries[d := Spawn(task, mode, now, turnTimeout)])
    case Take(d, now, ans) =>
      var del := s.deliveries[d];
      var after := Advance(del, now, del.task in s.breakers, ans);
      State(now, s.deliveries[d := after], Holder(s, d, del), Breakers(s, d, del, ans),
            s.log + Entries(d, del, after, ans))
  }

  /** A run of the coordinator: any interleaving of any number of deliveries. */
  ghost predicate Run(states: seq<State>, events: seq<Event>) {
    && |states| == |events| + 1
    && states[0] == Init(states[0].now)
    && forall i :: 0 <= i < |events| ==> Enabled(states[i], events[i]) && states[i + 1] == Step(states[i], events[i])
  }
}
