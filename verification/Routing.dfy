/** Route outcomes, the frozen fallback policy and the classification of a routing round. */
module Routing {
  import opened Types

  datatype Route = Desktop | AppServer

  datatype Mode = QueueMode | SteerMode

  datatype Operation = Start | Steer

  datatype Reason = Unavailable | Incompatible | PreSubmitFailure | TaskBusy | ConfirmedNotSubmitted

  datatype RouteOutcome =
    | Confirmed(route: Route, turn: TurnId, operation: Operation)
    | NotSubmitted(route: Route, reason: Reason)
    | Ambiguous(route: Route)
    | Rejected(route: Route)

  datatype Tag = IsConfirmed | IsNotSubmitted | IsAmbiguous | IsRejected

  datatype Stage = SubmitStage | AwaitTurn | ReconcileAppServer

  /** One line of the audit trail. */
  datatype Attempt = Attempt(route: Route, stage: Stage, tag: Tag)

  datatype DeliveryOutcome =
    | ConfirmedDesktop(turn: TurnId, operation: Operation, attempts: seq<Attempt>)
    | ConfirmedAppServer(turn: TurnId, operation: Operation, attempts: seq<Attempt>)
    | AmbiguousDelivery(route: Route, attempts: seq<Attempt>)
    | UnavailableDelivery(attempts: seq<Attempt>)
    | RejectedDelivery(route: Route, attempts: seq<Attempt>)

  datatype RoutingResult =
    | Settled(outcome: DeliveryOutcome)
    | PendingReconciliation(route: Route, attempts: seq<Attempt>)

  const PREFERRED_ROUTE := Desktop
  const FALLBACK_AFTER: seq<Reason> := [Unavailable, Incompatible, PreSubmitFailure, ConfirmedNotSubmitted]

  predicate MayFallback(outcome: RouteOutcome) {
    && outcome.route == PREFERRED_ROUTE
    && outcome.NotSubmitted?
    && exists k :: 0 <= k < |FALLBACK_AFTER| && FALLBACK_AFTER[k] == outcome.reason
  }

  /** Only a Desktop non-submission may fall back, and a busy task is the one reason that stops it. */
  lemma FallbackIffSafe(outcome: RouteOutcome)
    ensures MayFallback(outcome)
            <==> outcome.route == Desktop && outcome.NotSubmitted? && outcome.reason != TaskBusy
  {
    assert FALLBACK_AFTER[0] == Unavailable && FALLBACK_AFTER[1] == Incompatible
        && FALLBACK_AFTER[2] == PreSubmitFailure && FALLBACK_AFTER[3] == ConfirmedNotSubmitted;
  }

  function AttemptOf(outcome: RouteOutcome): Attempt {
    Attempt(outcome.route, SubmitStage,
            match outcome
            case Confirmed(_, _, _) => IsConfirmed
            case NotSubmitted(_, _) => IsNotSubmitted
            case Ambiguous(_) => IsAmbiguous
            case Rejected(_) => IsRejected)
  }

  function ConfirmedBy(route: Route, turn: TurnId, operation: Operation, attempts: seq<Attempt>): DeliveryOutcome {
    if route == Desktop then ConfirmedDesktop(turn, operation, attempts)
    else ConfirmedAppServer(turn, operation, attempts)
  }

  function RouteResult(outcome: RouteOutcome, attempts: seq<Attempt>): RoutingResult {
    match outcome
    case Confirmed(route, turn, operation) => Settled(ConfirmedBy(route, turn, operation, attempts))
    case Ambiguous(route) => PendingReconciliation(route, attempts)
    case Rejected(route) => Settled(RejectedDelivery(route, attempts))
    case NotSubmitted(_, _) => Settled(UnavailableDelivery(attempts))
  }

  /** A defect is ambiguous once the adapter has been called and a plain non-submission before. */
  function Unexpected(route: Route, submitted: bool): RouteOutcome {
    if submitted then Ambiguous(route) else NotSubmitted(route, PreSubmitFailure)
  }

  /** A wait that failed before any route was tried. */
  function IdleUnavailable(): DeliveryOutcome {
    UnavailableDelivery([Attempt(AppServer, AwaitTurn, IsNotSubmitted)])
  }

  /** How long one call of the environment may take: never past the deadline or the idle timeout, and never zero. */
  function RemainingWait(now: int, deadline: int, idleTimeout: int): (wait: int)
    ensures wait >= 1
    ensures now < deadline ==> now + wait <= deadline
    ensures idleTimeout >= 1 ==> wait <= idleTimeout
  {
    var left := if deadline - now > 1 then deadline - now else 1;
    var idle := if idleTimeout > 1 then idleTimeout else 1;
    if left < idle then left else idle
  }
}
