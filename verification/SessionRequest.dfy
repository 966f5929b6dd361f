/** How a session turns a request into a target and a time budget. */
module SessionRequest {
  import opened Types
  import opened Owners
  import Wire

  const MAX_SAFE_INTEGER := 0x1F_FFFF_FFFF_FFFF

  /** The moment by which a request must be submitted; a timeout out of bounds has none. */
  function RequestDeadline(limits: Wire.Limits, timeout: int, now: int): Option<int> {
    if timeout > MAX_SAFE_INTEGER || timeout < limits.minTimeout then None
    else Some(now + if timeout < limits.maxTimeout then timeout else limits.maxTimeout)
  }

  /** What is left of it, unless that is too little to submit at all. */
  function RemainingBudget(limits: Wire.Limits, deadline: int, now: int): Option<int> {
    if deadline - now < limits.minTimeout then None else Some(deadline - now)
  }

  /** A budget that a session grants is never refused by the connection as a timeout out of bounds. */
  lemma BudgetFitsWire(limits: Wire.Limits, timeout: int, now: int, later: int, s: Wire.State, attempt: Wire.Attempt)
    requires now <= later && RequestDeadline(limits, timeout, now).Some?
    requires RemainingBudget(limits, RequestDeadline(limits, timeout, now).value, later) == Some(attempt.timeoutMs)
    ensures later + attempt.timeoutMs <= now + timeout
    ensures Wire.Invalid(s, limits, attempt) != Some(Wire.InvalidTimeout)
  {
  }

  const MAX_MUTATION_TIMEOUT := 30_000

  /** A mutation never gets more than half a minute. */
  function MutationDeadline(limits: Wire.Limits, timeout: int, now: int): Option<int> {
    RequestDeadline(limits, if timeout < MAX_MUTATION_TIMEOUT then timeout else MAX_MUTATION_TIMEOUT, now)
  }

  /** Asked for this long at `now`, a request may still be submitted `later` exactly if its timeout is an ordered
      number no smaller than the least, and at least that least is left of the shorter of it and the most; then all
      that is left is granted. A mutation is the same with half a minute as another bound. */
  lemma BudgetIsGrantedExactlyWhen(limits: Wire.Limits, timeout: int, now: int, later: int, budget: int)
    requires now <= later
    ensures var deadline, left := RequestDeadline(limits, timeout, now), now + timeout - later;
            && (deadline.Some? <==> limits.minTimeout <= timeout <= MAX_SAFE_INTEGER)
            && (deadline.Some? ==>
                  (RemainingBudget(limits, deadline.value, later) == Some(budget)
                   <==> budget >= limits.minTimeout
                        && budget == if timeout < limits.maxTimeout then left else now + limits.maxTimeout - later))
    ensures MutationDeadline(limits, timeout, now)
            == if timeout <= 30_000 then RequestDeadline(limits, timeout, now) else RequestDeadline(limits, 30_000, now)
  {
  }

  datatype Target = To(owner: Source) | Untargeted | Refused(reason: Refusal)

  datatype Refusal = NotFollowed | BudgetExpired | SessionClosed | SessionReset | OwnerUnroutable | OwnerNotObserved

  function RefusalOf(result: WaitResult): Refusal
    requires !result.Owner?
  {
    match result
    case Closed => SessionClosed
    case Reset => SessionReset
    case Unroutable => OwnerUnroutable
    case Timeout => OwnerNotObserved
  }

  /** `requestTarget` once its wait, if it needs one and `budget` allows it, is settled. */
  function TargetOf(
    s: State, t: ThreadId, followed: bool, requireFollow: bool, budget: Option<int>, waited: WaitResult)
    : (Target, State)
  {
    if !followed then (if requireFollow then Refused(NotFollowed) else Untargeted, s)
    else if !requireFollow then (if t in s.owners then To(s.owners[t]) else Untargeted, s)
    else if budget.None? then (Refused(BudgetExpired), s)
    else if waited.Owner? then (To(waited.owner), s)
    else (Refused(RefusalOf(waited)), Step(s, Invalidate(t)))
  }

  /** A request that need not be followed goes to the task's owner exactly if the task is followed and has one: the
      first source seen since the last clear; and otherwise to nobody in particular. */
  lemma ReadTargetsOwner(events: seq<Event>, t: ThreadId, followed: bool, budget: Option<int>, waited: WaitResult)
    ensures var (target, after) := TargetOf(Exec(events), t, followed, false, budget, waited);
            && after == Exec(events) && !target.Refused?
            && (forall source :: target == To(source) ==> HasFirst(events, t, source))
            && (target.Untargeted? <==> !followed || NoneSinceClear(events, t))
  {
    OwnerIsFirstRoutable(events, t);
    OwnedIsNotNone(events, t);
  }

  /** A mutation of a followed task within its budget goes to the owner its wait gave, if it gave one, and is refused
      for what its wait said otherwise; without following or budget it is refused before any wait. */
  lemma MutationIsTargetedExactly(s: State, t: ThreadId, followed: bool, budget: Option<int>, waited: WaitResult)
    ensures var (target, after) := TargetOf(s, t, followed, true, budget, waited);
            && (target.To? <==> followed && budget.Some? && waited.Owner?)
            && (target.To? ==> target.owner == waited.owner && after == s)
            && (target == Refused(NotFollowed) <==> !followed)
            && (target == Refused(BudgetExpired) <==> followed && budget.None?)
            && (target == Refused(OwnerUnroutable) <==> followed && budget.Some? && waited.Unroutable?)
            && (target == Refused(OwnerNotObserved) <==> followed && budget.Some? && waited.Timeout?)
            && (target == Refused(SessionClosed) <==> followed && budget.Some? && waited.Closed?)
            && (target == Refused(SessionReset) <==> followed && budget.Some? && waited.Reset?)
            && (!followed || budget.None? ==> after == s)
  {
    hide Step;
  }

  /** A mutation is targeted only at an owner it was given; one whose wait gave none leaves the task unroutable and
      unowned. */
  lemma MutationTargetsEvidence(events: seq<Event>, t: ThreadId, followed: bool, budget: Option<int>, w: WaiterId)
    requires w in Exec(events).settled && Exec(events).settled[w].thread == t
    ensures var given := Exec(events).settled[w];
            var (target, after) := TargetOf(Exec(events), t, followed, true, budget, given.result);
            && !target.Untargeted?
            && (target.To? ==>
                  followed && budget.Some? && given.at <= |events| && HasFirst(events[..given.at], t, target.owner))
            && (target.Refused? && followed && budget.Some? ==>
                  && t !in after.owners && t in after.unroutable
                  && forall v :: v in after.waiting ==> after.waiting[v] != t)
  {
    if Exec(events).settled[w].result.Owner? { OwnerResultIsEvidence(events, w); }
  }
}
