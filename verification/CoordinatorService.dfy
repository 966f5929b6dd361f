/** The gated part of a delivery as one sequential piece of code, against the transition system it belongs to. */
module CoordinatorService {
  import opened Types
  import opened Routing
  import opened Coordinator

  /** What the environment answers at each wait of one Desktop round, and the time of the last check. */
  datatype DesktopScript = DesktopScript(
    probe: Answer, connect: Answer, follow: Answer, at: int, reply: Answer, close: Answer)

  /** The same for the app-server attempt. */
  datatype LocalScript = LocalScript(probe: Answer, at: int, reply: Answer)

  predicate ProbeFits(ans: Answer) {
    ans.Status? || ans.TimedOut? || ans == Defect(None)
  }

  /** A timeout, a typed failure or a defect before anything was submitted. */
  predicate FailsEarly(ans: Answer) {
    ans.TimedOut? || FailedFits(ans) || ans == Defect(None)
  }

  predicate DesktopFits(script: DesktopScript) {
    && ProbeFits(script.probe)
    && (script.connect.Proceed? || FailsEarly(script.connect))
    && (script.follow.Followed? || FailsEarly(script.follow))
    && ReplyFits(script.reply, Desktop)
    && (script.close.Proceed? || script.close == Defect(None))
  }

  predicate LocalFits(script: LocalScript) {
    ProbeFits(script.probe) && ReplyFits(script.reply, AppServer)
  }

  /** The steps of the transition system from the breaker check to the Desktop decision. */
  ghost function DesktopRound(del: Delivery, blocked: bool, script: DesktopScript): Delivery
    requires del.pc.CheckBreaker? && DesktopFits(script)
  {
    var checked := Advance(del, script.at, blocked, Proceed);
    if checked.pc.Decided? then checked
    else
      var probed := Advance(checked, script.at, blocked, script.probe);
      if probed.pc.Decided? then probed
      else Scoped(probed, blocked, script)
  }

  /** From the connection attempt on: whatever happens, the scope is closed before the decision stands. */
  ghost function Scoped(del: Delivery, blocked: bool, script: DesktopScript): Delivery
    requires del.pc.Connecting? && DesktopFits(script)
  {
    var connected := Advance(del, script.at, blocked, script.connect);
    var followed :=
      if connected.pc.Following? then Advance(connected, script.at, blocked, script.follow) else connected;
    var submitted := if followed.pc.Submitting? then Advance(followed, script.at, blocked, script.reply) else followed;
    Advance(submitted, script.at, blocked, script.close)
  }

  ghost function LocalRound(del: Delivery, script: LocalScript): Delivery
    requires del.pc.LocalProbing? && LocalFits(script)
  {
    var probed := Advance(del, script.at, false, script.probe);
    if probed.pc.LocalSubmitting? then Advance(probed, script.at, false, script.reply) else probed
  }

  /** A step changes where a delivery stands and what it did, never whose it is. */
  predicate SameRequest(before: Delivery, after: Delivery) {
    after.task == before.task && after.mode == before.mode && after.deadline == before.deadline
  }

  lemma ScopeCloses(del: Delivery, blocked: bool, script: DesktopScript)
    requires del.pc.Connecting? && DesktopFits(script)
    ensures Scoped(del, blocked, script).pc.Decided? && SameRequest(del, Scoped(del, blocked, script))
  {
    var connected := Advance(del, script.at, blocked, script.connect);
    assert SameRequest(del, connected);
    if connected.pc.Following? {
      var followed := Advance(connected, script.at, blocked, script.follow);
      assert SameRequest(del, followed);
    }
  }

  lemma RoundDecides(del: Delivery, blocked: bool, script: DesktopScript)
    requires del.pc.CheckBreaker? && DesktopFits(script)
    ensures DesktopRound(del, blocked, script).pc.Decided? && SameRequest(del, DesktopRound(del, blocked, script))
  {
    hide Scoped;
    var checked := Advance(del, script.at, blocked, Proceed);
    if !checked.pc.Decided? {
      var probed := Advance(checked, script.at, blocked, script.probe);
      if !probed.pc.Decided? { ScopeCloses(probed, blocked, script); }
    }
  }

  // ---------- what a round's answers decide ----------

  /** Desktop is available, connects and follows the task, and no breaker stands. */
  predicate Follows(blocked: bool, script: DesktopScript) {
    !blocked && script.probe == Status(Available) && script.connect.Proceed? && script.follow.Followed?
  }

  /** The task's activity is what the mode needs. */
  predicate ActivityFits(mode: Mode, activity: Activity) {
    if mode == QueueMode then activity == Idle else activity == Active
  }

  /** A round calls Desktop's submit exactly if nothing before it failed, the activity fits and there is time; then what
      Desktop replied stands, and a defect there or while closing is ambiguous. */
  lemma RoundSubmitsExactlyWhen(del: Delivery, blocked: bool, script: DesktopScript)
    requires del.pc.CheckBreaker? && DesktopFits(script)
    ensures var after := DesktopRound(del, blocked, script);
            var submits := && Follows(blocked, script) && ActivityFits(del.mode, script.follow.activity)
                           && script.at < del.deadline;
            && after.pc.Decided?
            && (submits ==>
                  && after.trace == del.trace + [Called(Desktop, script.at)]
                  && after.writes == del.writes + Wrote(Desktop, script.reply.wrote)
                  && after.pc.decision
                     == Outcome(if script.close.Defect? || script.reply.Defect? then Ambiguous(Desktop)
                                else script.reply.outcome))
            && (!submits ==> after.trace == del.trace && after.writes == del.writes)
  {
    hide Scoped;
    var checked := Advance(del, script.at, blocked, Proceed);
    if checked.pc.Probing? {
      var probed := Advance(checked, script.at, blocked, script.probe);
      if probed.pc.Connecting? { ScopeSubmitsExactlyWhen(probed, blocked, script); }
    }
  }

  lemma ScopeSubmitsExactlyWhen(del: Delivery, blocked: bool, script: DesktopScript)
    requires del.pc.Connecting? && DesktopFits(script)
    ensures var after := Scoped(del, blocked, script);
            var submits := && script.connect.Proceed? && script.follow.Followed?
                           && ActivityFits(del.mode, script.follow.activity) && script.at < del.deadline;
            && after.pc.Decided?
            && (submits ==>
                  && after.trace == del.trace + [Called(Desktop, script.at)]
                  && after.writes == del.writes + Wrote(Desktop, script.reply.wrote)
                  && after.pc.decision
                     == Outcome(if script.close.Defect? || script.reply.Defect? then Ambiguous(Desktop)
                                else script.reply.outcome))
            && (!submits ==> after.trace == del.trace && after.writes == del.writes)
  {
    hide Advance, ActivityFits, Unexpected, ReplyFits;
    var connected := Advance(del, script.at, blocked, script.connect);
    ConnectLeadsTo(del, script.at, blocked, script.connect);
    if connected.pc.Following? {
      var followed := Advance(connected, script.at, blocked, script.follow);
      FollowLeadsTo(connected, script.at, blocked, script.follow);
      if followed.pc.Submitting? {
        var submitted := Advance(followed, script.at, blocked, script.reply);
        SubmitLeadsTo(followed, script.at, blocked, script.reply);
        CloseLeadsTo(submitted, script.at, blocked, script.close);
      } else {
        CloseLeadsTo(followed, script.at, blocked, script.close);
      }
    } else {
      CloseLeadsTo(connected, script.at, blocked, script.close);
    }
  }

  lemma ConnectLeadsTo(del: Delivery, now: int, blocked: bool, ans: Answer)
    requires Fits(del, ans) && del.pc.Connecting?
    ensures var after := Advance(del, now, blocked, ans);
            after == del.(pc := after.pc) && if ans.Proceed? then after.pc.Following? else after.pc.Closing?
  {
  }

  lemma FollowLeadsTo(del: Delivery, now: int, blocked: bool, ans: Answer)
    requires Fits(del, ans) && del.pc.Following?
    ensures var after := Advance(del, now, blocked, ans);
            if ans.Followed? && ActivityFits(del.mode, ans.activity) && now < del.deadline
            then after == del.(pc := Submitting, trace := del.trace + [Called(Desktop, now)])
            else after == del.(pc := after.pc) && after.pc.Closing?
  {
  }

  lemma SubmitLeadsTo(del: Delivery, now: int, blocked: bool, ans: Answer)
    requires Fits(del, ans) && del.pc.Submitting?
    ensures Advance(del, now, blocked, ans)
            == del.(pc := Closing(Outcome(if ans.Defect? then Ambiguous(Desktop) else ans.outcome), true),
                    writes := del.writes + Wrote(Desktop, ans.wrote))
  {
  }

  lemma CloseLeadsTo(del: Delivery, now: int, blocked: bool, ans: Answer)
    requires Fits(del, ans) && del.pc.Closing?
    ensures var after := Advance(del, now, blocked, ans);
            after == del.(pc := after.pc) && after.pc.Decided?
    ensures ans.Proceed? ==> Advance(del, now, blocked, ans).pc == Decided(del.pc.decision)
    ensures ans.Defect? && del.pc.submitted ==>
              Advance(del, now, blocked, ans).pc == Decided(Outcome(Ambiguous(Desktop)))
  {
  }

  /** Why a followed task is not written to: a queued message waits for a busy one, a steer needs one running turn, and
      there may be no time left. */
  function Unfit(mode: Mode, activity: Activity): Decision {
    if mode == QueueMode && activity != Idle then Busy
    else if mode == SteerMode && activity == MultipleActive then Outcome(NotSubmitted(Desktop, TaskBusy))
    else if mode == SteerMode && activity == Idle then Outcome(NotSubmitted(Desktop, PreSubmitFailure))
    else Outcome(NotSubmitted(Desktop, Unavailable))
  }

  /** The reason behind a failure before the submit. */
  function EarlyReason(ans: Answer): Reason {
    if ans.TimedOut? then Unavailable else if ans.Failed? then ans.reason else PreSubmitFailure
  }

  /** A round that does not call Desktop ends for the first thing that stood in its way; a defect while closing the
      connection stands for whatever that was. */
  lemma UnsubmittedRoundSaysWhy(del: Delivery, blocked: bool, script: DesktopScript)
    requires del.pc.CheckBreaker? && DesktopFits(script) && DesktopRound(del, blocked, script).trace == del.trace
    ensures DesktopRound(del, blocked, script).pc.Decided?
    ensures var decision := DesktopRound(del, blocked, script).pc.decision;
            && (blocked ==> decision == Outcome(NotSubmitted(Desktop, Unavailable)))
            && (!blocked && script.probe != Status(Available) ==>
                  decision == Outcome(NotSubmitted(Desktop, if script.probe == Status(StatusIncompatible)
                                                            then Incompatible
                                                            else if script.probe.Defect? then PreSubmitFailure
                                                            else Unavailable)))
            && (!blocked && script.probe == Status(Available) ==>
                  && (script.close.Defect? ==> decision == Outcome(NotSubmitted(Desktop, PreSubmitFailure)))
                  && (!script.close.Defect? && !script.connect.Proceed? ==>
                        decision == Outcome(NotSubmitted(Desktop, EarlyReason(script.connect))))
                  && (!script.close.Defect? && script.connect.Proceed? && !script.follow.Followed? ==>
                        decision == Outcome(NotSubmitted(Desktop, EarlyReason(script.follow))))
                  && (!script.close.Defect? && Follows(blocked, script) ==>
                        decision == Unfit(del.mode, script.follow.activity)))
  {
    RoundSubmitsExactlyWhen(del, blocked, script);
    assert |del.trace + [Called(Desktop, script.at)]| != |del.trace|;
  }

  /** The app-server attempt calls its submit exactly if the server is available in time; then what it replied stands
      and a defect is ambiguous, and otherwise nothing was submitted, for the reason found. */
  lemma LocalRoundExactly(del: Delivery, script: LocalScript)
    requires del.pc.LocalProbing? && LocalFits(script)
    ensures var after := LocalRound(del, script);
            var submits := script.probe == Status(Available) && script.at < del.deadline;
            var outcome :=
              if submits then (if script.reply.Defect? then Ambiguous(AppServer) else script.reply.outcome)
              else NotSubmitted(AppServer, if script.probe == Status(StatusIncompatible) then Incompatible
                                           else if script.probe.Defect? then PreSubmitFailure else Unavailable);
            && after.trace
               == del.trace + (if submits then [Called(AppServer, script.at)] else []) + [Attempted(outcome)]
            && after.writes == del.writes + (if submits then Wrote(AppServer, script.reply.wrote) else [])
            && after.pc.Releasing? && after.pc.gated.Routed?
  {
    assert del.trace + [] == del.trace && del.writes + [] == del.writes;
  }

  class LocalDeliveryCoordinator {
    var desktopBreakers: map<ThreadId, DeliveryId>

    constructor ()
      ensures desktopBreakers == map[]
    {
      desktopBreakers := map[];
    }

    /** The coordinator's state as far as the breaker is concerned. */
    ghost function View(): State
      reads this
    {
      Init(0).(breakers := desktopBreakers)
    }

    /** One Desktop round: every failure before the submit is a plain non-submission, every defect after it
        ambiguous. */
    method SubmitDesktop(del: Delivery, script: DesktopScript) returns (decision: Decision)
      requires del.pc.CheckBreaker? && DesktopFits(script)
      ensures DesktopRound(del, del.task in desktopBreakers, script).pc == Decided(decision)
    {
      var submitted := false;
      if del.task in desktopBreakers { return Outcome(NotSubmitted(Desktop, Unavailable)); }
      if script.probe.TimedOut? { return Outcome(Timeout(Desktop)); }
      if script.probe.Defect? { return Outcome(Unexpected(Desktop, submitted)); }
      if script.probe.status != Available { return Outcome(StatusOutcome(Desktop, script.probe.status)); }
      if script.connect.TimedOut? {
        decision := Outcome(Timeout(Desktop));
      } else if script.connect.Failed? {
        decision := Outcome(NotSubmitted(Desktop, script.connect.reason));
      } else if script.connect.Defect? {
        decision := Outcome(Unexpected(Desktop, submitted));
      } else if script.follow.TimedOut? {
        decision := Outcome(Timeout(Desktop));
      } else if script.follow.Failed? {
        decision := Outcome(NotSubmitted(Desktop, script.follow.reason));
      } else if script.follow.Defect? {
        decision := Outcome(Unexpected(Desktop, submitted));
      } else if del.mode == SteerMode && script.follow.activity == MultipleActive {
        decision := Outcome(NotSubmitted(Desktop, TaskBusy));
      } else if del.mode == SteerMode && script.follow.activity == Idle {
        decision := Outcome(NotSubmitted(Desktop, PreSubmitFailure));
      } else if del.mode == QueueMode && script.follow.activity != Idle {
        decision := Busy;
      } else if script.at >= del.deadline {
        decision := Outcome(Timeout(Desktop));
      } else {
        submitted := true;
        decision := Outcome(if script.reply.Reply? then script.reply.outcome else Unexpected(Desktop, submitted));
      }
      if script.close.Defect? { decision := Outcome(Unexpected(Desktop, submitted)); }
    }

    /** `del` is the delivery that the deadline belongs to, where the transition system has it by then. */
    method SubmitLocal(deadline: int, script: LocalScript, ghost del: Delivery) returns (outcome: RouteOutcome)
      requires del.pc.LocalProbing? && del.deadline == deadline && LocalFits(script)
      ensures LocalRound(del, script).pc
              == Releasing(Routed(RouteResult(outcome, [AttemptOf(del.pc.desktop), AttemptOf(outcome)])))
    {
      var submitted := false;
      if script.probe.TimedOut? { return Timeout(AppServer); }
      if script.probe.Defect? { return Unexpected(AppServer, submitted); }
      if script.probe.status != Available { return StatusOutcome(AppServer, script.probe.status); }
      if script.at >= deadline { return Timeout(AppServer); }
      submitted := true;
      outcome := if script.reply.Reply? then script.reply.outcome else Unexpected(AppServer, submitted);
    }

    /** A routing round leaves the breakers and the gated result that the steps of the transition system leave. */
    method Route(d: DeliveryId, del: Delivery, desktop: DesktopScript, decidedAt: int, local: LocalScript)
      returns (gated: GatedResult)
      requires del.pc.CheckBreaker? && DesktopFits(desktop)
      requires LocalFits(local)
      modifies this`desktopBreakers
      ensures var decided := DesktopRound(del, del.task in old(desktopBreakers), desktop);
              var routed := Advance(decided, decidedAt, false, Proceed);
              && desktopBreakers == Breakers(old(View()), d, decided, Proceed)
              && (routed.pc.LocalProbing? ==> LocalRound(routed, local).pc == Releasing(gated))
              && (!routed.pc.LocalProbing? ==> routed.pc == Releasing(gated))
    {
      hide DesktopRound, LocalRound;
      RoundDecides(del, del.task in desktopBreakers, desktop);
      ghost var decided := DesktopRound(del, del.task in desktopBreakers, desktop);
      var decision := SubmitDesktop(del, desktop);
      if decision.Busy? { return RetryIdle(true); }
      var outcome := decision.outcome;
      if del.mode == QueueMode && outcome.NotSubmitted? && outcome.reason == TaskBusy { return RetryIdle(true); }
      if outcome.Ambiguous? { desktopBreakers := desktopBreakers[del.task := d]; }
      if !MayFallback(outcome) || decidedAt >= del.deadline {
        return Routed(RouteResult(outcome, [AttemptOf(outcome)]));
      }
      var second := SubmitLocal(del.deadline, local, Advance(decided, decidedAt, false, Proceed));
      gated := Routed(RouteResult(second, [AttemptOf(outcome), AttemptOf(second)]));
    }

    /** Only a match removes the breaker, and only the delivery's own. */
    method Reconcile(d: DeliveryId, del: Delivery, ans: Answer) returns (final: DeliveryOutcome)
      requires del.pc.Reconciling? && Fits(del, ans)
      modifies this`desktopBreakers
      ensures desktopBreakers == Breakers(old(View()), d, del, ans)
      ensures Advance(del, 0, false, ans).pc == Finished(final)
    {
      var attempt := Attempt(del.pc.route, ReconcileAppServer, if ans.Matched? then IsConfirmed else IsAmbiguous);
      if ans.Matched? && del.task in desktopBreakers && desktopBreakers[del.task] == d {
        desktopBreakers := desktopBreakers - {del.task};
      }
      final := if ans.Matched?
               then ConfirmedBy(del.pc.route, ans.turn, OperationOf(del.mode), del.pc.attempts + [attempt])
               else AmbiguousDelivery(del.pc.route, del.pc.attempts + [attempt]);
    }
  }
}
