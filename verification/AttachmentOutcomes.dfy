/** How a command of the attachment ends, told from the events of a run alone. */
module AttachmentOutcomes {
  import opened Types
  import opened Replica
  import opened Injection
  import opened Attachment
  import Agreement = ReplicaAgreement
  import Proof = AttachmentProof
  import Serialize

  // ---------- what Desktop's answer allows ----------

  /** The answer leaves open that the command's frame was written. */
  predicate MayHaveWritten(reply: Reply) {
    match reply
    case Accepted(_) => true
    case Refused(notWritten, _) => !notWritten
    case Threw(notWritten) => !notWritten
  }

  predicate AnswersTo(e: Event, id: CommandId) {
    e.Answer? && e.id == id
  }

  /** The turn a proof will look for: a steer's expected one, and for a start the one Desktop reported, if any. */
  function Sought(command: Command, reply: Reply): Option<TurnId> {
    if command.SteerTurn? then Some(command.expected)
    else if reply.Accepted? then reply.turn else None
  }

  /** Where a command can be after this answer. */
  predicate ReplyFits(request: Request, pc: Pc, reply: Reply) {
    match pc
    case Proving(_, _, turn) =>
      request.Inject? && MayHaveWritten(reply) && !reply.Refused? && turn == Sought(request.command, reply)
    case Done(outcome, _, _, _) =>
      && request.Inject?
      && match outcome {
           case Confirmed(_) => MayHaveWritten(reply) && !reply.Refused?
           case Ambiguous => MayHaveWritten(reply) && !reply.Refused?
           case NotSubmitted(_) => !MayHaveWritten(reply)
           case Rejected => MayHaveWritten(reply) && reply.Refused?
           case Resumed => false
         }
    case _ => false
  }

  predicate NeedsAnswer(pc: Pc) {
    pc.Proving? || (pc.Done? && (pc.outcome.Confirmed? || pc.outcome.Ambiguous? || pc.outcome.Rejected?))
  }

  ghost predicate Answered(events: seq<Event>, i: nat, id: CommandId, request: Request, pc: Pc)
    requires i <= |events|
  {
    && (forall k :: 0 <= k < i && AnswersTo(events[k], id) ==> ReplyFits(request, pc, events[k].reply))
    && (NeedsAnswer(pc) ==> exists k :: 0 <= k < i && AnswersTo(events[k], id))
  }

  /** Without an answer a command stays where it is, gets on before its injection, or ends after a wait for
      its proof. */
  predicate MovesQuietly(before: Pc, after: Pc) {
    || after == before
    || ((before.Synchronizing? || before.InSync?) && !NeedsAnswer(after))
    || (before.Proving? && after.Done? && (after.outcome.Confirmed? || after.outcome.Ambiguous?))
  }

  /** What a step may do to a command's standing. */
  predicate Moved(s: Machine, after: Machine, e: Event, id: CommandId) {
    && (id in s.pcs ==> id in after.pcs && id in s.requests)
    && (id in after.pcs ==> id in after.requests)
    && (id in s.pcs ==> after.requests[id] == s.requests[id])
    && (AnswersTo(e, id) ==>
          id in s.pcs && s.pcs[id].Injected? && ReplyFits(s.requests[id], after.pcs[id], e.reply))
    && (!AnswersTo(e, id) && id in s.pcs ==> MovesQuietly(s.pcs[id], after.pcs[id]))
    && (id in after.pcs && id !in s.pcs ==> !NeedsAnswer(after.pcs[id]))
  }

  ghost predicate Requested(s: Machine) {
    forall id :: id in s.pcs ==> id in s.requests
  }

  lemma EndedMoves(s: Machine, id: CommandId, outcome: Outcome, other: CommandId)
    requires At(s, id)
    ensures var after := Ended(s, id, outcome);
            && after.requests == s.requests && after.pcs.Keys == s.pcs.Keys
            && (other != id && other in s.pcs ==> after.pcs[other] == s.pcs[other])
            && after.pcs[id].Done? && after.pcs[id].outcome == outcome
  {
    hide Serialize.Release;
  }

  lemma OwnStepAnswers(s: Machine, e: Event, id: CommandId)
    requires Requested(s) && Enabled(s, e)
    requires e.SyncFailed? || e.SyncReturned? || e.Validate? || e.Answer? || e.Wake?
    ensures Moved(s, Step(s, e), e, id)
  {
    hide Agreement.Exec, CaptureProof, ProvenTurn, ValidationFails, Ended;
    assert At(s, e.id);
    forall outcome
      ensures var after := Ended(s, e.id, outcome);
              && after.requests == s.requests && after.pcs.Keys == s.pcs.Keys
              && (id != e.id && id in s.pcs ==> after.pcs[id] == s.pcs[id])
              && after.pcs[e.id].Done? && after.pcs[e.id].outcome == outcome
    {
      EndedMoves(s, e.id, outcome, id);
    }
  }

  lemma AttachLeavesCommands(s: Machine, thread: ThreadId, linked: bool)
    requires thread in s.histories
    ensures Attach(s, thread, linked).pcs == s.pcs && Attach(s, thread, linked).requests == s.requests
  {
    hide Agreement.Exec;
  }

  lemma BeginAnswers(s: Machine, e: Event, id: CommandId)
    requires Requested(s) && e.Begin? && Enabled(s, e) && e.id !in s.pcs
    ensures Moved(s, Step(s, e), e, id)
    ensures id in Step(s, e).pcs && InFlight(Step(s, e).pcs[id]) ==> id in s.pcs && Step(s, e).pcs[id] == s.pcs[id]
  {
    hide Agreement.Exec, Serialize.Start, Attach;
    var thread, started := ThreadOf(s, e.id), Started(s, e.id);
    assert started.pcs == s.pcs[e.id := Synchronizing] && started.requests == s.requests;
    var marked :=
      if s.requests[e.id].Inject? then Record(started, thread, Agreement.Mark(NoInjection)) else started;
    AttachLeavesCommands(marked, thread, e.linked);
  }

  lemma QuietStepAnswers(s: Machine, e: Event, id: CommandId)
    requires Requested(s) && Enabled(s, e)
    requires e.Look? || e.Issue? || e.Changed? || e.Reconnecting? || e.Reconnected? || e.Lost? || e.Close?
    ensures Moved(s, Step(s, e), e, id) && Step(s, e).pcs == s.pcs
  {
    hide Agreement.Exec, Serialize.Arrive, RecordAll;
    RecordsAnswerNothing(s, Agreement.Drop);
    RecordsAnswerNothing(s.(closed := true), Agreement.Drop);
    RecordsAnswerNothing(s.(generation := s.generation + 1), Agreement.Follow(s.generation + 1));
  }

  lemma RecordsAnswerNothing(s: Machine, e: Agreement.Event)
    ensures RecordAll(s, e).pcs == s.pcs && RecordAll(s, e).requests == s.requests
  {
  }

  lemma StepAnswers(s: Machine, e: Event, id: CommandId)
    requires Proof.Tracked(s) && Enabled(s, e)
    ensures Moved(s, Step(s, e), e, id)
  {
    hide Step, Moved;
    assert Requested(s);
    if e.Begin? { BeginAnswers(s, e, id); }
    else if e.SyncFailed? || e.SyncReturned? || e.Validate? || e.Answer? || e.Wake? { OwnStepAnswers(s, e, id); }
    else { QuietStepAnswers(s, e, id); }
  }

  lemma AnswersGrow(s: Machine, after: Machine, events: seq<Event>, i: nat, id: CommandId)
    requires i < |events| && Moved(s, after, events[i], id)
    requires id !in s.pcs ==> forall k :: 0 <= k < i ==> !AnswersTo(events[k], id)
    requires id in s.pcs ==> id in s.requests && Answered(events, i, id, s.requests[id], s.pcs[id])
    ensures id !in after.pcs ==> forall k :: 0 <= k < i + 1 ==> !AnswersTo(events[k], id)
    ensures id in after.pcs ==>
              id in after.requests && Answered(events, i + 1, id, after.requests[id], after.pcs[id])
  {
    hide AnswersTo;
    if id in after.pcs && NeedsAnswer(after.pcs[id]) && !AnswersTo(events[i], id) {
      var k :| 0 <= k < i && AnswersTo(events[k], id);
    }
  }

  lemma {:induction false} AnswersFit(states: seq<Machine>, events: seq<Event>, i: nat, id: CommandId)
    requires Run(states, events) && i < |states|
    ensures id !in states[i].pcs ==> forall k :: 0 <= k < i ==> !AnswersTo(events[k], id)
    ensures id in states[i].pcs ==>
              id in states[i].requests && Answered(events, i, id, states[i].requests[id], states[i].pcs[id])
  {
    hide Step, Moved, Answered, AnswersTo, Enabled, Proof.Tracked;
    if i > 0 {
      Proof.RunKeeps(states, events, i - 1);
      AnswersFit(states, events, i - 1, id);
      assert Enabled(states[i - 1], events[i - 1]) && states[i] == Step(states[i - 1], events[i - 1]);
      StepAnswers(states[i - 1], events[i - 1], id);
      AnswersGrow(states[i - 1], states[i], events, i - 1, id);
    }
  }

  /** In every run: a command that ended as not submitted was never answered in a way that leaves open a write; one that
      was so answered ends confirmed or ambiguous, or rejected exactly on a refusal that may have been written. */
  lemma OutcomeFitsAnswer(states: seq<Machine>, events: seq<Event>, i: nat, id: CommandId)
    requires Run(states, events) && i < |states| && id in states[i].pcs && states[i].pcs[id].Done?
    ensures var outcome := states[i].pcs[id].outcome;
            && (outcome.NotSubmitted? ==>
                  forall k :: 0 <= k < i && AnswersTo(events[k], id) ==> !MayHaveWritten(events[k].reply))
            && (forall k :: 0 <= k < i && AnswersTo(events[k], id) && !MayHaveWritten(events[k].reply) ==>
                  outcome.NotSubmitted?)
            && (forall k :: 0 <= k < i && AnswersTo(events[k], id) && MayHaveWritten(events[k].reply) ==>
                  && (outcome.Confirmed? || outcome.Ambiguous? || outcome.Rejected?)
                  && (outcome.Rejected? <==> events[k].reply.Refused?))
            && (outcome.Confirmed? || outcome.Ambiguous? || outcome.Rejected? ==>
                  exists k :: 0 <= k < i && AnswersTo(events[k], id) && MayHaveWritten(events[k].reply))
  {
    AnswersFit(states, events, i, id);
    var outcome := states[i].pcs[id].outcome;
    if outcome.Confirmed? || outcome.Ambiguous? || outcome.Rejected? {
      var k :| 0 <= k < i && AnswersTo(events[k], id);
      assert MayHaveWritten(events[k].reply);
    }
  }

  // ---------- what ends a command ----------

  /** The mark its outcome leaves on the task, as callers see it. */
  predicate MarkTells(outcome: Outcome, injection: Replica.Injection) {
    match outcome
    case Confirmed(_) => injection == InjectionConfirmed
    case Ambiguous => injection == Uncertain
    case Rejected => injection == InjectionRejected
    case NotSubmitted(_) => injection == NoInjection
    case Resumed => true
  }

  predicate EndsAs(s: Machine, id: CommandId, outcome: Outcome) {
    && id in s.pcs && s.pcs[id].Done? && s.pcs[id].outcome == outcome
    && id in s.chain.slots && ThreadOf(s, id) in s.histories
    && MarkTells(outcome, Replicated(s, ThreadOf(s, id)).injection)
  }

  lemma EndedTells(s: Machine, id: CommandId, outcome: Outcome)
    requires At(s, id)
    ensures EndsAs(Ended(s, id, outcome), id, outcome)
  {
    hide Agreement.Exec, Serialize.Release;
    Agreement.ExecAppend(s.histories[ThreadOf(s, id)], Agreement.Mark(MarkOf(outcome)));
    SlotStays(s.chain, id);
  }

  lemma SlotStays(chain: Serialize.Chain, id: CommandId)
    requires Serialize.IsRunning(chain, id)
    ensures id in Serialize.Release(chain, id).slots
    ensures Serialize.Release(chain, id).slots[id].thread == chain.slots[id].thread
  {
  }

  /** In every run a command whose synchronization fails ends at once: a resumption as such, an
      injection unsubmitted. */
  lemma SyncFailureEnds(states: seq<Machine>, events: seq<Event>, i: nat, id: CommandId)
    requires Run(states, events) && i < |events| && events[i] == SyncFailed(id)
    ensures id in states[i].requests
    ensures EndsAs(states[i + 1], id,
                   if states[i].requests[id].Resume? then Resumed else NotSubmitted(PreSubmitFailure))
  {
    hide Proof.Inv, Ended, EndsAs;
    Proof.RunKeeps(states, events, i);
    assert Enabled(states[i], events[i]) && states[i + 1] == Step(states[i], events[i]);
    EndedTells(states[i], id, if states[i].requests[id].Resume? then Resumed else NotSubmitted(PreSubmitFailure));
  }

  /** In every run a synchronized injection is sent exactly if it fits the task's activity; otherwise it ends
      unsubmitted, and a resumption just ends. */
  lemma InjectsExactlyWhenItFits(states: seq<Machine>, events: seq<Event>, i: nat, id: CommandId)
    requires Run(states, events) && i < |events| && events[i] == Validate(id)
    ensures id in states[i].requests && id in states[i].chain.slots && ThreadOf(states[i], id) in states[i].histories
    ensures id in states[i + 1].pcs
    ensures var request, replica := states[i].requests[id], Replicated(states[i], ThreadOf(states[i], id));
            && (request.Resume? ==> EndsAs(states[i + 1], id, Resumed))
            && (request.Inject? ==>
                  && (states[i + 1].pcs[id].Injected? <==> Proof.FitsActivity(request.command, replica.observed))
                  && (states[i + 1].pcs[id].Injected? ==>
                        ThreadOf(states[i], id) in states[i + 1].histories
                        && Replicated(states[i + 1], ThreadOf(states[i], id)) == replica.(injection := Injecting))
                  && (!states[i + 1].pcs[id].Injected? ==>
                        EndsAs(states[i + 1], id,
                               NotSubmitted(if FoundBusy(request.command, replica.observed) then TaskBusy
                                            else PreSubmitFailure))))
  {
    hide Proof.Inv, Ended, EndsAs, Proof.FitsActivity, ValidationFails, Agreement.Exec, Unfit, FoundBusy;
    Proof.RunKeeps(states, events, i);
    var s := states[i];
    assert Enabled(s, events[i]) && states[i + 1] == Step(s, events[i]);
    EndedTells(s, id, Resumed);
    if s.requests[id].Inject? {
      var unfit := NotSubmitted(Unfit(s.requests[id].command, Replicated(s, ThreadOf(s, id)).observed));
      EndedTells(s, id, unfit);
      EndedIsDone(s, id, unfit);
      BusyIsFound(s.requests[id].command, Replicated(s, ThreadOf(s, id)).observed);
      Proof.ValidMeansFits(s.requests[id].command, Replicated(s, ThreadOf(s, id)).observed);
    }
    EndedIsDone(s, id, Resumed);
    Agreement.ExecAppend(s.histories[ThreadOf(s, id)], Agreement.Mark(Injecting));
  }

  /** The task is busy under this command: a turn runs under a start, or several do. */
  ghost predicate FoundBusy(command: Command, o: Observed) {
    || (command.StartTurn? && exists a :: ActiveTurn(o, a))
    || exists a, b :: ActiveTurn(o, a) && ActiveTurn(o, b) && a != b
  }

  lemma BusyIsFound(command: Command, o: Observed)
    ensures Unfit(command, o) == if FoundBusy(command, o) then TaskBusy else PreSubmitFailure
  {
    var active := set id | id in o.turns && ActiveTurn(o, id);
    if |active| > 1 {
      var a :| a in active;
      assert |active - {a}| > 0;
      var b :| b in active - {a};
      assert ActiveTurn(o, a) && ActiveTurn(o, b);
    }
    if a, b :| ActiveTurn(o, a) && ActiveTurn(o, b) && a != b {
      assert {a, b} <= active;
      SmallerSet({a, b}, active);
    }
    if a :| ActiveTurn(o, a) { assert a in active; }
    if active != {} {
      var a :| a in active;
      assert ActiveTurn(o, a);
    }
  }

  lemma SmallerSet(small: set<TurnId>, large: set<TurnId>)
    requires small <= large
    ensures |small| <= |large|
  {
    assert large == small + (large - small);
  }

  lemma EndedIsDone(s: Machine, id: CommandId, outcome: Outcome)
    requires At(s, id)
    ensures id in Ended(s, id, outcome).pcs && Ended(s, id, outcome).pcs[id].Done?
  {
  }

  /** In every run an answer that says that nothing was written ends the command unsubmitted, a refusal that may have
      been written ends it rejected, and after any other the command looks for its proof. */
  lemma AnswerDecides(states: seq<Machine>, events: seq<Event>, i: nat, id: CommandId, reply: Reply)
    requires Run(states, events) && i < |events| && events[i] == Answer(id, reply)
    ensures id in states[i].requests && states[i].requests[id].Inject? && id in states[i + 1].pcs
    ensures !MayHaveWritten(reply) ==>
              EndsAs(states[i + 1], id, NotSubmitted(if reply.Refused? && reply.confirmed then ConfirmedNotSubmitted
                                                     else PreSubmitFailure))
    ensures MayHaveWritten(reply) && reply.Refused? ==> EndsAs(states[i + 1], id, Rejected)
    ensures MayHaveWritten(reply) && !reply.Refused? ==>
              states[i + 1].pcs[id].Proving?
              && states[i + 1].pcs[id].turn == Sought(states[i].requests[id].command, reply)
  {
    hide Proof.Inv, Ended, EndsAs;
    Proof.RunKeeps(states, events, i);
    var s := states[i];
    assert Enabled(s, events[i]) && states[i + 1] == Step(s, events[i]);
    forall outcome ensures EndsAs(Ended(s, id, outcome), id, outcome) { EndedTells(s, id, outcome); }
    EndedIsDone(s, id, NotSubmitted(PreSubmitFailure));
    EndedIsDone(s, id, NotSubmitted(ConfirmedNotSubmitted));
    EndedIsDone(s, id, Rejected);
  }

  /** In every run a wait for the proof ends confirmed exactly if it did not time out and the replica shows the turn as
      the command's, compared with the replica before the injection; and ambiguous otherwise. */
  lemma ConfirmedExactlyWhenShown(states: seq<Machine>, events: seq<Event>, i: nat, id: CommandId, timedOut: bool)
    requires Run(states, events) && i < |events| && events[i] == Wake(id, timedOut)
    ensures var s := states[i];
            && id in s.requests && s.requests[id].Inject? && id in s.pcs && s.pcs[id].Proving?
            && id in s.chain.slots && ThreadOf(s, id) in s.histories
            && s.pcs[id].since <= |s.histories[ThreadOf(s, id)]|
    ensures var s, after := states[i], states[i + 1];
            var command, h, pc := s.requests[id].command, s.histories[ThreadOf(s, id)], s.pcs[id];
            var baseline := CaptureProof(command, Agreement.Exec(h[..pc.since]));
            && (forall turn :: EndsAs(after, id, Confirmed(turn))
                               <==> !timedOut && Shows(command, Agreement.Exec(h), pc.turn, baseline, turn))
            && (EndsAs(after, id, Ambiguous)
                <==> timedOut || forall turn :: !Shows(command, Agreement.Exec(h), pc.turn, baseline, turn))
  {
    hide Ended, EndsAs, Shows, ProvenTurn, CaptureProof, Agreement.Exec, Proof.Wired;
    Proof.RunKeeps(states, events, i);
    var s := states[i];
    assert Enabled(s, events[i]) && states[i + 1] == Step(s, events[i]);
    var command, h, pc := s.requests[id].command, s.histories[ThreadOf(s, id)], s.pcs[id];
    assert Proof.CommandInv(h, s.requests[id], pc);
    var proven := ProvenTurn(command, Agreement.Exec(h), pc.turn, pc.baseline);
    forall turn ensures proven == Some(turn) <==> Shows(command, Agreement.Exec(h), pc.turn, pc.baseline, turn) {
      ProvenExactlyWhenShown(command, Agreement.Exec(h), pc.turn, pc.baseline, turn);
    }
    var outcome := if timedOut || proven.None? then Ambiguous else Confirmed(proven.value);
    EndedTells(s, id, outcome);
    EndsOnce(Ended(s, id, outcome), id, outcome);
  }

  lemma EndsOnce(s: Machine, id: CommandId, outcome: Outcome)
    requires EndsAs(s, id, outcome)
    ensures forall other :: EndsAs(s, id, other) ==> other == outcome
  {
  }

  // ---------- the link during a command ----------

  /** The event takes the connection, or the following, away from every task. */
  predicate LinkLost(s: Machine, e: Event) {
    !s.closed && (e.Lost? || e.Close? || e.Reconnecting?)
  }

  predicate InFlight(pc: Pc) {
    pc.Injected? || pc.Proving?
  }

  /** Since the command was validated its task's history only grew, and shows every loss of the link. */
  ghost predicate Recorded(states: seq<Machine>, events: seq<Event>, v: nat, i: nat, id: CommandId, t: ThreadId)
    requires v < i < |states| == |events| + 1
  {
    && events[v] == Validate(id)
    && id in states[i].pcs && InFlight(states[i].pcs[id])
    && id in states[i].chain.slots && ThreadOf(states[i], id) == t && t in states[i].histories
    && states[i].pcs[id].since <= |states[i].histories[t]|
    && ((exists k :: v < k < i && LinkLost(states[k], events[k])) ==>
          Proof.Broken(states[i].histories[t], states[i].pcs[id].since))
  }

  /** Histories only grow, and a command stays with its task. */
  predicate Framed(s: Machine, after: Machine) {
    && (forall t :: t in s.histories ==> t in after.histories && s.histories[t] <= after.histories[t])
    && (forall id :: id in s.chain.slots ==>
          id in after.chain.slots && after.chain.slots[id].thread == s.chain.slots[id].thread)
  }

  lemma EndedFrames(s: Machine, id: CommandId, outcome: Outcome)
    requires At(s, id)
    ensures Framed(s, Ended(s, id, outcome))
  {
  }

  lemma OwnStepFrames(s: Machine, e: Event)
    requires Enabled(s, e) && (e.SyncFailed? || e.SyncReturned? || e.Validate? || e.Answer? || e.Wake?)
    ensures Framed(s, Step(s, e))
  {
    hide Agreement.Exec, CaptureProof, ProvenTurn, ValidationFails, Ended, Framed;
    assert At(s, e.id);
    forall outcome ensures Framed(s, Ended(s, e.id, outcome)) { EndedFrames(s, e.id, outcome); }
    forall pc ensures Framed(s, SetPc(s, e.id, pc)) { PcFrames(s, e.id, pc); }
    if e.Validate? && s.requests[e.id].Inject? {
      var command := s.requests[e.id].command;
      InjectionFrames(s, e.id, Injected(|s.histories[ThreadOf(s, e.id)]|,
                                        CaptureProof(command, Replicated(s, ThreadOf(s, e.id)))));
    }
  }

  lemma PcFrames(s: Machine, id: CommandId, pc: Pc)
    ensures Framed(s, SetPc(s, id, pc))
  {
  }

  lemma InjectionFrames(s: Machine, id: CommandId, pc: Pc)
    requires At(s, id)
    ensures Framed(s, SetPc(Record(s, ThreadOf(s, id), Agreement.Mark(Injecting)), id, pc))
  {
  }

  lemma BeginFrames(s: Machine, e: Event)
    requires e.Begin? && Enabled(s, e)
    ensures Framed(s, Step(s, e))
  {
    hide Agreement.Exec, Framed;
    var thread, started := ThreadOf(s, e.id), Started(s, e.id);
    StartedFrames(s, e.id);
    var marked :=
      if s.requests[e.id].Inject? then Record(started, thread, Agreement.Mark(NoInjection)) else started;
    RecordFrames(started, thread, Agreement.Mark(NoInjection));
    RecordFrames(marked, thread, Agreement.Follow(marked.generation));
    RecordFrames(marked, thread, Agreement.Connect);
    PcFrames(marked, e.id, InSync);
    Reflexive(started);
    Reflexive(marked);
    forall m | Framed(marked, m) ensures Framed(s, m) {
      Transitive(s, started, marked);
      Transitive(s, marked, m);
    }
  }

  lemma StartedFrames(s: Machine, id: CommandId)
    requires Serialize.MayStart(s.chain, id)
    ensures Framed(s, Started(s, id))
  {
  }

  lemma RecordFrames(s: Machine, thread: ThreadId, e: Agreement.Event)
    requires thread in s.histories
    ensures Framed(s, Record(s, thread, e))
  {
  }

  lemma Reflexive(s: Machine)
    ensures Framed(s, s)
  {
  }

  lemma Transitive(s: Machine, between: Machine, after: Machine)
    requires Framed(s, between) && Framed(between, after)
    ensures Framed(s, after)
  {
  }

  lemma QuietStepFrames(s: Machine, e: Event)
    requires Enabled(s, e)
    requires e.Look? || e.Issue? || e.Changed? || e.Reconnecting? || e.Reconnected? || e.Lost? || e.Close?
    ensures Framed(s, Step(s, e))
    ensures LinkLost(s, e) ==>
              forall t :: t in s.histories ==>
                Step(s, e).histories[t] == s.histories[t] + [if e.Reconnecting? then Agreement.Follow(s.generation + 1)
                                                             else Agreement.Drop]
  {
    hide Agreement.Exec;
  }

  lemma HistoryStep(s: Machine, e: Event)
    requires Enabled(s, e)
    ensures Framed(s, Step(s, e))
    ensures LinkLost(s, e) ==>
              forall t :: t in s.histories ==>
                |Step(s, e).histories[t]| == |s.histories[t]| + 1
                && Proof.Breaks(Step(s, e).histories[t][|s.histories[t]|])
  {
    hide Step, Framed;
    if e.Begin? { BeginFrames(s, e); }
    else if e.SyncFailed? || e.SyncReturned? || e.Validate? || e.Answer? || e.Wake? { OwnStepFrames(s, e); }
    else { QuietStepFrames(s, e); }
  }

  lemma BrokenStays(h: History, longer: History, since: nat)
    requires h <= longer
    ensures Proof.Broken(h, since) ==> Proof.Broken(longer, since)
    ensures since <= |h| < |longer| && Proof.Breaks(longer[|h|]) ==> Proof.Broken(longer, since)
  {
    if Proof.Broken(h, since) {
      var j :| since <= j < |h| && Proof.Breaks(h[j]);
      assert Proof.Breaks(longer[j]);
    }
  }

  /** A command in flight was validated, or was in flight already and its baseline is the same. */
  lemma StaysInFlight(s: Machine, e: Event, id: CommandId)
    requires Proof.Tracked(s) && Enabled(s, e) && id in Step(s, e).pcs && InFlight(Step(s, e).pcs[id])
    ensures e == Validate(id)
            || (id in s.pcs && InFlight(s.pcs[id]) && Step(s, e).pcs[id].since == s.pcs[id].since)
  {
    hide Step, Moved, Proof.Tracked;
    assert Requested(s) && (e.Begin? ==> e.id !in s.pcs) by { TrackedMeans(s, e); }
    if e.Begin? { BeginAnswers(s, e, id); }
    else if e.SyncFailed? || e.SyncReturned? || e.Validate? || e.Answer? || e.Wake? { OwnStepFlies(s, e, id); }
    else { QuietStepAnswers(s, e, id); }
  }

  lemma TrackedMeans(s: Machine, e: Event)
    requires Proof.Tracked(s) && Enabled(s, e)
    ensures Requested(s) && (e.Begin? ==> e.id !in s.pcs)
  {
  }

  lemma OwnStepFlies(s: Machine, e: Event, id: CommandId)
    requires Enabled(s, e) && (e.SyncFailed? || e.SyncReturned? || e.Validate? || e.Answer? || e.Wake?)
    requires id in Step(s, e).pcs && InFlight(Step(s, e).pcs[id])
    ensures e == Validate(id)
            || (id in s.pcs && InFlight(s.pcs[id]) && Step(s, e).pcs[id].since == s.pcs[id].since)
  {
    hide Agreement.Exec, CaptureProof, ProvenTurn, ValidationFails, Ended;
    assert At(s, e.id);
    forall outcome
      ensures var after := Ended(s, e.id, outcome);
              && after.pcs.Keys == s.pcs.Keys && (id != e.id && id in s.pcs ==> after.pcs[id] == s.pcs[id])
              && after.pcs[e.id].Done?
    {
      EndedMoves(s, e.id, outcome, id);
    }
  }

  /** Where a command in flight comes from: its validation, and nothing lost since that its history does not show. */
  lemma {:induction false} ValidatedBefore(states: seq<Machine>, events: seq<Event>, i: nat, id: CommandId)
    returns (v: nat)
    requires Run(states, events) && i < |states| && id in states[i].pcs && InFlight(states[i].pcs[id])
    ensures v < i && id in states[i].chain.slots && Recorded(states, events, v, i, id, ThreadOf(states[i], id))
  {
    hide Step, Framed, LinkLost;
    assert i > 0;
    var s, e := states[i - 1], events[i - 1];
    Proof.RunKeeps(states, events, i - 1);
    Proof.RunKeeps(states, events, i);
    assert Enabled(s, e) && states[i] == Step(s, e);
    StaysInFlight(s, e, id);
    if e == Validate(id) {
      v := i - 1;
      assert Proof.CommandInv(states[i].histories[ThreadOf(states[i], id)], states[i].requests[id], states[i].pcs[id]);
    } else {
      v := ValidatedBefore(states, events, i - 1, id);
      StillRecorded(states, events, v, i, id, ThreadOf(s, id));
    }
  }

  lemma StillRecorded(states: seq<Machine>, events: seq<Event>, v: nat, i: nat, id: CommandId, t: ThreadId)
    requires v < i - 1 < i < |states| == |events| + 1 && Recorded(states, events, v, i - 1, id, t)
    requires Enabled(states[i - 1], events[i - 1]) && states[i] == Step(states[i - 1], events[i - 1])
    requires id in states[i].pcs && InFlight(states[i].pcs[id])
    requires states[i].pcs[id].since == states[i - 1].pcs[id].since
    ensures Recorded(states, events, v, i, id, t)
  {
    hide Step, Framed, LinkLost, Enabled;
    var s, after := states[i - 1], states[i];
    HistoryStep(s, events[i - 1]);
    FrameMeans(s, after, id, t);
    BrokenStays(s.histories[t], after.histories[t], s.pcs[id].since);
    if exists k :: v < k < i && LinkLost(states[k], events[k]) {
      var k :| v < k < i && LinkLost(states[k], events[k]);
      assert k == i - 1 || LinkLost(states[k], events[k]);
    }
  }

  lemma FrameMeans(s: Machine, after: Machine, id: CommandId, t: ThreadId)
    requires Framed(s, after) && id in s.chain.slots && t in s.histories && ThreadOf(s, id) == t
    ensures t in after.histories && s.histories[t] <= after.histories[t]
    ensures id in after.chain.slots && ThreadOf(after, id) == t
  {
  }

  /** In every run a confirmed command had its link from its validation to its confirmation: no disconnect, no reconnect
      and no close happened in between. */
  lemma ConfirmedKeptItsLink(states: seq<Machine>, events: seq<Event>, i: nat, id: CommandId, turn: TurnId)
    returns (v: nat)
    requires Run(states, events) && i < |events| && events[i] == Wake(id, false)
    requires EndsAs(states[i + 1], id, Confirmed(turn))
    ensures v < i && events[v] == Validate(id)
    ensures forall k :: v < k < i ==> !LinkLost(states[k], events[k])
  {
    hide Step, EndsAs, Shows, LinkLost, CaptureProof;
    assert Enabled(states[i], events[i]);
    v := ValidatedBefore(states, events, i, id);
    ConfirmedExactlyWhenShown(states, events, i, id, false);
    Proof.RunKeeps(states, events, i);
    var s := states[i];
    var h, pc := s.histories[ThreadOf(s, id)], s.pcs[id];
    assert Proof.CommandInv(h, s.requests[id], pc);
    ShownIsUnbroken(h, pc.since, pc.baseline, s.requests[id].command, pc.turn, turn);
  }

  lemma ShownIsUnbroken(
    h: History, since: nat, baseline: Baseline, command: Command, reported: Option<TurnId>, turn: TurnId)
    requires Proof.Window(h, since, baseline, command) && Shows(command, Agreement.Exec(h), reported, baseline, turn)
    ensures !Proof.Broken(h, since)
  {
    Agreement.IndexesStayLinked(h);
    hide Agreement.Exec;
  }

  // ---------- getting started ----------

  /** In every run a command that begins while the attachment is open either finds its task synchronized or has it
      follow the current generation, or connect first when there is no link; while it is closed it does neither. */
  lemma BeginSynchronizes(states: seq<Machine>, events: seq<Event>, i: nat, id: CommandId, linked: bool)
    requires Run(states, events) && i < |events| && events[i] == Begin(id, linked)
    ensures id in states[i + 1].pcs && id in states[i + 1].chain.slots
    ensures ThreadOf(states[i + 1], id) in states[i + 1].histories
    ensures var replica, pc := Replicated(states[i + 1], ThreadOf(states[i + 1], id)), states[i + 1].pcs[id];
            && (states[i].closed ==> pc.Synchronizing?)
            && (!states[i].closed ==>
                  && (pc.InSync? <==> replica.Ready())
                  && (pc.Synchronizing? ==>
                        || (replica.attachment == Following && replica.generation == states[i].generation)
                        || (!linked && replica.connection == Connecting)))
    ensures ThreadOf(states[i + 1], id) in states[i].histories ==>
              var was, now := Replicated(states[i], ThreadOf(states[i + 1], id)),
                              Replicated(states[i + 1], ThreadOf(states[i + 1], id));
              was.Ready() || (was.attachment == Following && was.generation == states[i].generation) ==>
                now == was.(injection := now.injection)
    ensures id in states[i].requests && states[i].requests[id].Inject? ==>
              Replicated(states[i + 1], ThreadOf(states[i + 1], id)).injection == NoInjection
  {
    hide Agreement.Exec, Serialize.Start, Attach, Started, Record;
    var s, thread := states[i], ThreadOf(states[i], id);
    assert Enabled(s, events[i]) && states[i + 1] == Step(s, events[i]);
    StartedStands(s, id);
    RecordStands(Started(s, id), thread, Agreement.Mark(NoInjection));
    Agreement.ExecAppend(Started(s, id).histories[thread], Agreement.Mark(NoInjection));
    var started := Started(s, id);
    var marked := if s.requests[id].Inject? then Record(started, thread, Agreement.Mark(NoInjection)) else started;
    if !Replicated(marked, thread).Ready() { AttachReaches(marked, thread, linked); }
  }

  lemma StartedStands(s: Machine, id: CommandId)
    requires Serialize.MayStart(s.chain, id)
    ensures var started := Started(s, id);
            && id in started.pcs && started.pcs[id] == Synchronizing && started.generation == s.generation
            && id in started.chain.slots && ThreadOf(started, id) == ThreadOf(s, id)
            && ThreadOf(s, id) in started.histories && started.closed == s.closed
            && (ThreadOf(s, id) in s.histories ==>
                  started.histories[ThreadOf(s, id)] == s.histories[ThreadOf(s, id)])
  {
  }

  lemma RecordStands(s: Machine, thread: ThreadId, e: Agreement.Event)
    requires thread in s.histories
    ensures var after := Record(s, thread, e);
            && after.pcs == s.pcs && after.chain == s.chain && after.generation == s.generation
            && after.closed == s.closed && thread in after.histories
            && after.histories[thread] == s.histories[thread] + [e]
  {
  }

  /** A replica that is not synchronized is made to follow the current generation, or to connect when there is no
      link. */
  lemma AttachReaches(s: Machine, thread: ThreadId, linked: bool)
    requires thread in s.histories && !Replicated(s, thread).Ready()
    ensures var after := Attach(s, thread, linked);
            && after.pcs == s.pcs && after.chain == s.chain && thread in after.histories
            && var replica := Replicated(after, thread);
               && !replica.Ready() && replica.injection == Replicated(s, thread).injection
               && (|| (replica.attachment == Following && replica.generation == s.generation)
                   || (!linked && replica.connection == Connecting))
               && (Replicated(s, thread).attachment == Following && Replicated(s, thread).generation == s.generation ==>
                     replica == Replicated(s, thread))
  {
    Agreement.ExecAppend(s.histories[thread], Agreement.Follow(s.generation));
    Agreement.ExecAppend(s.histories[thread], Agreement.Connect);
    hide Agreement.Exec;
  }

  lemma {:induction false} ChainStaysRooted(states: seq<Machine>, events: seq<Event>, i: nat)
    requires Run(states, events) && i < |states|
    ensures Serialize.Rooted(states[i].chain)
  {
    if i > 0 {
      ChainStaysRooted(states, events, i - 1);
      Proof.RunKeeps(states, events, i - 1);
      var s, e := states[i - 1], events[i - 1];
      assert Enabled(s, e) && states[i] == Step(s, e);
      StepRoots(s, e);
    }
  }

  lemma StepRoots(s: Machine, e: Event)
    requires Enabled(s, e) && Serialize.Rooted(s.chain) && Serialize.Ordered(s.chain)
    ensures Serialize.Rooted(Step(s, e).chain)
  {
    hide Serialize.Rooted, Serialize.Ordered, Serialize.Arrive, Serialize.Start, Serialize.Release;
    hide Agreement.Exec, ProvenTurn, CaptureProof, ValidationFails;
    match e
    case Issue(id, thread, _) => Serialize.ArriveKeepsRoots(s.chain, id, thread);
    case Begin(id, _) => Serialize.StartKeepsRoots(s.chain, id);
    case SyncFailed(id) => Serialize.ReleaseKeepsRoots(s.chain, id);
    case Validate(id) => Serialize.ReleaseKeepsRoots(s.chain, id);
    case Answer(id, _) => Serialize.ReleaseKeepsRoots(s.chain, id);
    case Wake(id, _) => Serialize.ReleaseKeepsRoots(s.chain, id);
    case _ =>
  }

  /** In every run no task is stuck: while a command of it waits, one of its commands runs or may begin. */
  lemma NoTaskIsStuck(states: seq<Machine>, events: seq<Event>, i: nat, id: CommandId) returns (next: CommandId)
    requires Run(states, events) && i < |states| && id in states[i].chain.slots
    requires states[i].chain.slots[id].phase == Serialize.Waiting
    ensures next in states[i].chain.slots && ThreadOf(states[i], next) == ThreadOf(states[i], id)
    ensures Serialize.IsRunning(states[i].chain, next) || Enabled(states[i], Begin(next, true))
  {
    hide Serialize.Ordered, Serialize.Rooted;
    Proof.RunKeeps(states, events, i);
    ChainStaysRooted(states, events, i);
    next := Serialize.SomeoneGoesOn(states[i].chain, id);
  }

  // ---------- what every task hears ----------

  /** In every run, while the attachment is open: a lost link or the close disconnects every task; a reconnect has
      every task follow the next generation from nothing; its end has every connecting task, and no other, do so for
      the current one; and a change reaches its own task's replica under the current generation. Once closed, none of
      these happens. */
  lemma LinkReachesEveryTask(states: seq<Machine>, events: seq<Event>, i: nat, t: ThreadId)
    requires Run(states, events) && i < |events| && t in states[i].histories
    ensures t in states[i + 1].histories
    ensures var s, after, e := states[i], states[i + 1], events[i];
            var was, now := Replicated(s, t), Replicated(after, t);
            && (s.closed && (e.Lost? || e.Close? || e.Reconnecting? || e.Reconnected? || e.Changed?) ==> after == s)
            && (!s.closed && (e.Lost? || e.Close?) ==>
                  now.connection == Disconnected && !now.Ready() && now.revision == was.revision
                  && now.injection == (if was.injection == Injecting then Uncertain else was.injection)
                  && (after.closed <==> e.Close?))
            && (!s.closed && e.Reconnecting? ==> after.generation == s.generation + 1)
            && (!s.closed && (e.Reconnecting? || (e.Reconnected? && was.connection == Connecting)) ==>
                  now.connection == Connected && now.attachment == Following && now.generation == after.generation
                  && now.revision == None && now.observed == EMPTY && now.injection == was.injection)
            && (!s.closed && e.Reconnected? ==>
                  after.generation == s.generation && (was.connection != Connecting ==> now == was))
            && (!s.closed && e.Changed? ==> now == if e.thread == t then Apply(was, e.change, s.generation) else was)
  {
    hide Agreement.Exec, Apply, Framed, Step;
    var s, e := states[i], events[i];
    assert Enabled(s, e) && states[i + 1] == Step(s, e);
    HistoryStep(s, e);
    FramedKeeps(s, states[i + 1], t);
    match e
    case Lost => DropReaches(s, e, t);
    case Close => DropReaches(s, e, t);
    case Reconnecting => FollowReaches(s, e, t);
    case Reconnected => FollowReaches(s, e, t);
    case Changed(_, _) => ChangeReaches(s, e, t);
    case _ =>
  }

  lemma FramedKeeps(s: Machine, after: Machine, t: ThreadId)
    requires Framed(s, after) && t in s.histories
    ensures t in after.histories
  {
  }

  lemma DropReaches(s: Machine, e: Event, t: ThreadId)
    requires (e.Lost? || e.Close?) && t in s.histories
    ensures var after := Step(s, e);
            && (s.closed ==> after == s)
            && (!s.closed ==>
                  && t in after.histories && (after.closed <==> e.Close?)
                  && Replicated(after, t) == Disconnect(Replicated(s, t)))
  {
    Agreement.ExecAppend(s.histories[t], Agreement.Drop);
    hide Agreement.Exec;
  }

  lemma FollowReaches(s: Machine, e: Event, t: ThreadId)
    requires (e.Reconnecting? || e.Reconnected?) && t in s.histories
    ensures var after := Step(s, e);
            && (s.closed ==> after == s)
            && (!s.closed ==>
                  && t in after.histories
                  && after.generation == (if e.Reconnecting? then s.generation + 1 else s.generation)
                  && Replicated(after, t)
                     == if e.Reconnecting? || Replicated(s, t).connection == Connecting
                        then BeginFollowing(Replicated(s, t), after.generation) else Replicated(s, t))
  {
    Agreement.ExecAppend(s.histories[t], Agreement.Follow(s.generation + 1));
    Agreement.ExecAppend(s.histories[t], Agreement.Follow(s.generation));
    hide Agreement.Exec;
  }

  lemma ChangeReaches(s: Machine, e: Event, t: ThreadId)
    requires e.Changed? && t in s.histories
    ensures var after := Step(s, e);
            && (s.closed ==> after == s)
            && (!s.closed ==>
                  && t in after.histories
                  && Replicated(after, t) == if e.thread == t then Apply(Replicated(s, t), e.change, s.generation)
                                             else Replicated(s, t))
  {
    Agreement.ExecAppend(s.histories[t], Agreement.Deliver(e.change, s.generation));
    hide Agreement.Exec, Apply;
  }
}
