/** A confirmed Desktop injection, in every run of the attachment. */
module AttachmentProof {
  import opened Types
  import opened Replica
  import opened Injection
  import opened Attachment
  import Agreement = ReplicaAgreement
  import Documents = DocumentAgreement
  import Serialize

  predicate Breaks(e: Agreement.Event) {
    e.Follow? || e.Drop? || e.Connect?
  }

  /** A disconnect, a connection attempt or a new following happened in the window. */
  ghost predicate Broken(h: History, since: nat) {
    exists j :: since <= j < |h| && Breaks(h[j])
  }

  /** A start is sent to a task without a running turn, a steer to one whose only running turn is the expected one. */
  ghost predicate FitsActivity(command: Command, o: Observed) {
    forall id :: ActiveTurn(o, id) <==> command.SteerTurn? && id == command.expected
  }

  lemma ValidMeansFits(command: Command, o: Observed)
    ensures !ValidationFails(command, o) <==> FitsActivity(command, o)
  {
    var active := set id | id in o.turns && ActiveTurn(o, id);
    forall id ensures ActiveTurn(o, id) <==> id in active {}
    if FitsActivity(command, o) {
      if command.SteerTurn? { assert active == {command.expected}; } else { assert active == {}; }
    }
  }

  /** What a command keeps between its baseline and its proof. */
  ghost predicate Window(h: History, since: nat, baseline: Baseline, command: Command) {
    && since <= |h|
    && FitsActivity(command, Agreement.Exec(h[..since]).observed)
    && baseline == CaptureProof(command, Agreement.Exec(h[..since]))
    && Agreement.Exec(h).connection != Connecting
    && Agreement.Exec(h).generation >= baseline.generation
    && (Broken(h, since) && Agreement.Exec(h).generation == baseline.generation ==>
          Agreement.Exec(h).connection == Disconnected)
  }

  /** No second command can touch the window: whatever else happens is a change, a mark, a drop or a newer following. */
  predicate Harmless(h: History, e: Agreement.Event) {
    match e
    case Connect => false
    case Follow(generation) => generation > Agreement.Exec(h).generation
    case _ => true
  }

  lemma WindowGrows(h: History, e: Agreement.Event, since: nat, baseline: Baseline, command: Command)
    requires Window(h, since, baseline, command) && Harmless(h, e)
    ensures Window(h + [e], since, baseline, command)
  {
    Agreement.ExecAppend(h, e);
    assert (h + [e])[..since] == h[..since];
    if Broken(h + [e], since) && !Breaks(e) {
      var j :| since <= j < |h + [e]| && Breaks((h + [e])[j]);
      assert Breaks(h[j]);
    }
  }

  /** The evidence behind a confirmation, frozen at the moment it was given. */
  ghost predicate Evidence(h: History, since: nat, baseline: Baseline, command: Command, turn: TurnId) {
    && Window(h, since, baseline, command)
    && exists reported: Option<TurnId> ::
         ProvenTurn(command, Agreement.Exec(h), reported, baseline) == Some(turn)
         && (command.SteerTurn? ==> reported == Some(command.expected))
  }

  // ---------- the invariant of the machine ----------

  predicate PastSync(pc: Pc) {
    pc.InSync? || pc.Injected? || pc.Proving?
  }

  ghost predicate Wired(s: Machine) {
    Serialize.Ordered(s.chain) && Tracked(s)
  }

  /** A command has a counter exactly from its start on, and its task a history. */
  ghost predicate Tracked(s: Machine) {
    && s.generation >= 0
    && (forall id :: id in s.chain.slots ==> id in s.requests)
    && (forall id :: id in s.pcs ==>
          && id in s.chain.slots
          && s.chain.slots[id].thread in s.histories
          && s.chain.slots[id].phase == if s.pcs[id].Done? then Serialize.Released else Serialize.Running)
    && (forall id :: id in s.chain.slots && s.chain.slots[id].phase == Serialize.Running ==> id in s.pcs)
    && (forall t :: t in s.histories ==> Agreement.Exec(s.histories[t]).generation <= s.generation)
  }

  ghost predicate CommandInv(h: History, request: Request, pc: Pc) {
    && (PastSync(pc) ==> Agreement.Exec(h).connection != Connecting)
    && (pc.Injected? ==> request.Inject? && Window(h, pc.since, pc.baseline, request.command))
    && (pc.Proving? ==>
          && request.Inject? && Window(h, pc.since, pc.baseline, request.command)
          && (request.command.SteerTurn? ==> pc.turn == Some(request.command.expected)))
    && (pc.Done? ==> pc.upto <= |h|)
    && (pc.Done? && pc.outcome.Confirmed? ==>
          && request.Inject? && pc.evidence.Some?
          && Evidence(h[..pc.upto], pc.since, pc.evidence.value, request.command, pc.outcome.turn))
  }

  ghost predicate Inv(s: Machine) {
    && Wired(s)
    && forall id :: id in s.pcs ==> CommandInv(s.histories[s.chain.slots[id].thread], s.requests[id], s.pcs[id])
  }

  /** Another task's command, or an ended one, is untouched by an event recorded for this task. */
  lemma CommandGrows(h: History, e: Agreement.Event, request: Request, pc: Pc)
    requires CommandInv(h, request, pc) && (PastSync(pc) ==> Harmless(h, e))
    ensures CommandInv(h + [e], request, pc)
  {
    Agreement.ExecAppend(h, e);
    if pc.Injected? || pc.Proving? { WindowGrows(h, e, pc.since, pc.baseline, request.command); }
    if pc.Done? { assert (h + [e])[..pc.upto] == h[..pc.upto]; }
  }

  /** A command past its synchronization is the only one its task has past its start. */
  lemma Alone(s: Machine, id: CommandId, other: CommandId)
    requires Wired(s) && id in s.pcs && other in s.pcs && !s.pcs[id].Done? && !s.pcs[other].Done?
    requires s.chain.slots[id].thread == s.chain.slots[other].thread
    ensures id == other
  {
    if id != other { Serialize.OneAtATimeInOrder(s.chain, id, other); }
  }

  lemma RecordKeeps(s: Machine, thread: ThreadId, e: Agreement.Event)
    requires Inv(s) && thread in s.histories
    requires e.Follow? ==> e.generation <= s.generation
    requires forall id :: id in s.pcs && s.chain.slots[id].thread == thread && PastSync(s.pcs[id]) ==>
               Harmless(s.histories[thread], e)
    ensures Inv(Record(s, thread, e))
  {
    hide CommandInv, Serialize.Ordered, Harmless;
    RecordStaysTracked(s, thread, e);
    var after := Record(s, thread, e);
    forall id | id in s.pcs
      ensures CommandInv(after.histories[after.chain.slots[id].thread], after.requests[id], after.pcs[id])
    {
      if s.chain.slots[id].thread == thread { CommandGrows(s.histories[thread], e, s.requests[id], s.pcs[id]); }
    }
  }

  lemma RecordStaysTracked(s: Machine, thread: ThreadId, e: Agreement.Event)
    requires Tracked(s) && thread in s.histories && (e.Follow? ==> e.generation <= s.generation)
    ensures Tracked(Record(s, thread, e))
  {
    GenerationAfter(s.histories[thread], e, s.generation);
    hide Agreement.Exec;
  }

  lemma GenerationAfter(h: History, e: Agreement.Event, bound: int)
    requires Agreement.Exec(h).generation <= bound && (e.Follow? ==> e.generation <= bound)
    ensures Agreement.Exec(h + [e]).generation <= bound
  {
    Agreement.ExecAppend(h, e);
  }

  lemma SetPcKeeps(s: Machine, id: CommandId, pc: Pc)
    requires Inv(s) && id in s.pcs && !s.pcs[id].Done? && !pc.Done?
    requires CommandInv(s.histories[s.chain.slots[id].thread], s.requests[id], pc)
    ensures Inv(SetPc(s, id, pc))
  {
    hide CommandInv, Serialize.Ordered;
  }

  lemma ReleaseKeeps(s: Machine, id: CommandId, done: Pc)
    requires Inv(s) && id in s.pcs && !s.pcs[id].Done? && done.Done?
    requires CommandInv(s.histories[s.chain.slots[id].thread], s.requests[id], done)
    ensures Inv(Release(s, id, done))
  {
    hide CommandInv, Serialize.Ordered;
    Serialize.ReleaseKeepsOrder(s.chain, id);
  }

  lemma DoneFits(h: History, request: Request, pc: Pc, outcome: Outcome)
    requires CommandInv(h, request, pc)
    requires outcome.Confirmed? ==>
               pc.Proving? && request.Inject? && Evidence(h, pc.since, pc.baseline, request.command, outcome.turn)
    ensures CommandInv(h, request, DonePc(pc, outcome, |h|))
  {
    assert h[..|h|] == h;
  }

  lemma EndedKeeps(s: Machine, id: CommandId, outcome: Outcome)
    requires Inv(s) && id in s.pcs && !s.pcs[id].Done?
    requires outcome.Confirmed? ==>
               && s.pcs[id].Proving? && s.requests[id].Inject?
               && Evidence(s.histories[ThreadOf(s, id)], s.pcs[id].since, s.pcs[id].baseline,
                           s.requests[id].command, outcome.turn)
    ensures Inv(Ended(s, id, outcome))
  {
    var thread := ThreadOf(s, id);
    var h := s.histories[thread];
    var done := DonePc(s.pcs[id], outcome, |h|);
    DoneFits(h, s.requests[id], s.pcs[id], outcome);
    if !outcome.Resumed? {
      var mark := Agreement.Mark(MarkOf(outcome));
      RecordKeeps(s, thread, mark);
      CommandGrows(h, mark, s.requests[id], done);
      ReleaseKeeps(Record(s, thread, mark), id, done);
    } else {
      ReleaseKeeps(s, id, done);
    }
  }

  lemma RecordAllKeeps(s: Machine, e: Agreement.Event)
    requires Inv(s) && (e.Drop? || (e.Follow? && e.generation == s.generation))
    requires e.Follow? ==> forall t :: t in s.histories ==> Agreement.Exec(s.histories[t]).generation < s.generation
    ensures Inv(RecordAll(s, e))
  {
    var after := RecordAll(s, e);
    forall t | t in s.histories ensures after.histories[t] == s.histories[t] + [e]
                                     && Agreement.Exec(after.histories[t]).generation <= s.generation
    {
      Agreement.ExecAppend(s.histories[t], e);
    }
    forall id | id in s.pcs
      ensures CommandInv(after.histories[s.chain.slots[id].thread], s.requests[id], s.pcs[id])
    {
      CommandGrows(s.histories[s.chain.slots[id].thread], e, s.requests[id], s.pcs[id]);
    }
  }

  lemma ReconnectedKeeps(s: Machine)
    requires Inv(s) && !s.closed
    ensures Inv(Step(s, Reconnected))
  {
    var after := Step(s, Reconnected);
    forall t | t in s.histories ensures Agreement.Exec(after.histories[t]).generation <= s.generation {
      Agreement.ExecAppend(s.histories[t], Agreement.Follow(s.generation));
    }
    forall id | id in s.pcs
      ensures CommandInv(after.histories[s.chain.slots[id].thread], s.requests[id], s.pcs[id])
    {
      // A task past its synchronization is never connecting, so it is not followed again.
      var h := s.histories[s.chain.slots[id].thread];
      if Agreement.Exec(h).connection == Connecting {
        CommandGrows(h, Agreement.Follow(s.generation), s.requests[id], s.pcs[id]);
      }
    }
  }

  lemma ConnectionKeeps(s: Machine, e: Event)
    requires Inv(s) && (e.Reconnecting? || e.Reconnected? || e.Lost? || e.Close?)
    ensures Inv(Step(s, e))
  {
    if !s.closed {
      match e
      case Reconnecting => RecordAllKeeps(s.(generation := s.generation + 1), Agreement.Follow(s.generation + 1));
      case Reconnected => ReconnectedKeeps(s);
      case Lost => RecordAllKeeps(s, Agreement.Drop);
      case Close => RecordAllKeeps(s.(closed := true), Agreement.Drop);
      case _ =>
    }
  }

  lemma IssueKeeps(s: Machine, e: Event)
    requires Inv(s) && e.Issue? && Enabled(s, e)
    ensures Inv(Step(s, e))
  {
    hide CommandInv, Serialize.Ordered;
    Serialize.ArriveKeepsOrder(s.chain, e.id, e.thread);
  }

  /** A task seen for the first time has nothing behind it. */
  lemma KnownKeeps(s: Machine, thread: ThreadId)
    requires Inv(s) && thread !in s.histories
    ensures Inv(s.(histories := s.histories[thread := []]))
  {
    assert Agreement.Exec([]) == Agreement.INITIAL;
  }

  lemma StartKeeps(s: Machine, id: CommandId)
    requires Inv(s) && Serialize.MayStart(s.chain, id) && ThreadOf(s, id) in s.histories && id in s.requests
    ensures Inv(SetPc(s, id, Synchronizing).(chain := Serialize.Start(s.chain, id)))
  {
    hide Serialize.Ordered;
    var after := SetPc(s, id, Synchronizing).(chain := Serialize.Start(s.chain, id));
    StartStaysWired(s, id);
    forall other | other in after.pcs
      ensures CommandInv(after.histories[after.chain.slots[other].thread], after.requests[other], after.pcs[other])
    {
      if other != id { assert other in s.pcs; }
    }
  }

  lemma StartStaysWired(s: Machine, id: CommandId)
    requires Wired(s) && Serialize.MayStart(s.chain, id) && ThreadOf(s, id) in s.histories && id in s.requests
    ensures Wired(SetPc(s, id, Synchronizing).(chain := Serialize.Start(s.chain, id)))
  {
    Serialize.StartKeepsOrder(s.chain, id);
    StartStaysTracked(s, id);
  }

  lemma StartStaysTracked(s: Machine, id: CommandId)
    requires Tracked(s) && Serialize.MayStart(s.chain, id) && ThreadOf(s, id) in s.histories && id in s.requests
    ensures Tracked(SetPc(s, id, Synchronizing).(chain := Serialize.Start(s.chain, id)))
  {
    assert id !in s.pcs;
  }

  ghost predicate NobodyPastSync(s: Machine, thread: ThreadId) {
    forall id :: id in s.pcs && id in s.chain.slots && s.chain.slots[id].thread == thread ==> !PastSync(s.pcs[id])
  }

  /** A started command is the only one of its task that is not over, and it has no baseline yet. */
  lemma StartedKeeps(s: Machine, id: CommandId)
    requires Inv(s) && Serialize.MayStart(s.chain, id) && id in s.requests
    ensures var started := Started(s, id);
            && Inv(started)
            && started.pcs[id] == Synchronizing
            && NobodyPastSync(started, ThreadOf(s, id))
  {
    var thread := ThreadOf(s, id);
    if thread !in s.histories { KnownKeeps(s, thread); }
    StartKeeps(if thread in s.histories then s else s.(histories := s.histories[thread := []]), id);
    NobodyElseStarted(Started(s, id), id);
  }

  lemma NobodyElseStarted(s: Machine, id: CommandId)
    requires Wired(s) && id in s.pcs && s.pcs[id] == Synchronizing
    ensures NobodyPastSync(s, ThreadOf(s, id))
  {
    forall other | other in s.pcs && s.chain.slots[other].thread == ThreadOf(s, id) ensures !PastSync(s.pcs[other]) {
      if !s.pcs[other].Done? { Alone(s, id, other); }
    }
  }

  lemma AttachKeeps(s: Machine, thread: ThreadId, linked: bool)
    requires Inv(s) && thread in s.histories
    requires NobodyPastSync(s, thread)
    ensures Inv(Attach(s, thread, linked))
  {
    var state := Replicated(s, thread);
    if !(state.attachment == Following && state.generation == s.generation) {
      RecordKeeps(s, thread, if linked then Agreement.Follow(s.generation) else Agreement.Connect);
    }
  }

  lemma BeginKeeps(s: Machine, id: CommandId, linked: bool)
    requires Inv(s) && Enabled(s, Begin(id, linked))
    ensures Inv(Step(s, Begin(id, linked)))
  {
    hide Inv, NobodyPastSync;
    var thread, started := ThreadOf(s, id), Started(s, id);
    StartedKeeps(s, id);
    var marked := if s.requests[id].Inject? then Record(started, thread, Agreement.Mark(NoInjection)) else started;
    MarkedKeeps(started, thread, s.requests[id].Inject?);
    if !s.closed && Replicated(marked, thread).Ready() { ReadyKeeps(marked, id); }
    else if !s.closed { AttachKeeps(marked, thread, linked); }
  }

  lemma MarkedKeeps(s: Machine, thread: ThreadId, inject: bool)
    requires Inv(s) && thread in s.histories && NobodyPastSync(s, thread)
    ensures var marked := if inject then Record(s, thread, Agreement.Mark(NoInjection)) else s;
            Inv(marked) && NobodyPastSync(marked, thread)
  {
    if inject { RecordKeeps(s, thread, Agreement.Mark(NoInjection)); }
  }

  /** A command whose task is synchronized has a baseline within reach. */
  lemma ReadyKeeps(s: Machine, id: CommandId)
    requires Inv(s) && id in s.pcs && s.pcs[id].Synchronizing? && Replicated(s, ThreadOf(s, id)).Ready()
    ensures Inv(SetPc(s, id, InSync))
  {
    Agreement.IndexesStayLinked(s.histories[ThreadOf(s, id)]);
    SetPcKeeps(s, id, InSync);
  }

  lemma ValidateKeeps(s: Machine, id: CommandId)
    requires Inv(s) && Enabled(s, Validate(id))
    ensures Inv(Step(s, Validate(id)))
  {
    if s.requests[id].Resume? { EndedKeeps(s, id, Resumed); }
    else {
      var thread, command := ThreadOf(s, id), s.requests[id].command;
      var h := s.histories[thread];
      ValidMeansFits(command, Replicated(s, thread).observed);
      if ValidationFails(command, Replicated(s, thread).observed) {
        EndedKeeps(s, id, NotSubmitted(Unfit(command, Replicated(s, thread).observed)));
      }
      else {
        RecordKeeps(s, thread, Agreement.Mark(Injecting));
        var marked := Record(s, thread, Agreement.Mark(Injecting));
        var baseline := CaptureProof(command, Replicated(s, thread));
        assert h[..|h|] == h;
        assert Window(h, |h|, baseline, command);
        WindowGrows(h, Agreement.Mark(Injecting), |h|, baseline, command);
        SetPcKeeps(marked, id, Injected(|h|, baseline));
      }
    }
  }

  lemma AnswerKeeps(s: Machine, id: CommandId, reply: Reply)
    requires Inv(s) && Enabled(s, Answer(id, reply))
    ensures Inv(Step(s, Answer(id, reply)))
  {
    var pc, command := s.pcs[id], s.requests[id].command;
    var expected := if command.SteerTurn? then Some(command.expected) else None;
    match reply
    case Refused(notWritten, confirmed) =>
      EndedKeeps(s, id, if !notWritten then Rejected
                        else NotSubmitted(if confirmed then ConfirmedNotSubmitted else PreSubmitFailure));
    case Threw(notWritten) =>
      if notWritten { EndedKeeps(s, id, NotSubmitted(PreSubmitFailure)); }
      else { SetPcKeeps(s, id, Proving(pc.since, pc.baseline, expected)); }
    case Accepted(turn) =>
      SetPcKeeps(s, id, Proving(pc.since, pc.baseline, if command.SteerTurn? then expected else turn));
  }

  lemma WakeKeeps(s: Machine, id: CommandId, timedOut: bool)
    requires Inv(s) && Enabled(s, Wake(id, timedOut))
    ensures Inv(Step(s, Wake(id, timedOut)))
  {
    var pc, command := s.pcs[id], s.requests[id].command;
    var proven := ProvenTurn(command, Replicated(s, ThreadOf(s, id)), pc.turn, pc.baseline);
    EndedKeeps(s, id, if timedOut || proven.None? then Ambiguous else Confirmed(proven.value));
  }

  lemma StepKeeps(s: Machine, e: Event)
    requires Inv(s) && Enabled(s, e)
    ensures Inv(Step(s, e))
  {
    hide CommandInv, Serialize.Ordered;
    match e
    case Look(thread) => if thread !in s.histories { KnownKeeps(s, thread); }
    case Issue(_, _, _) => IssueKeeps(s, e);
    case Begin(id, linked) => BeginKeeps(s, id, linked);
    case SyncFailed(id) =>
      EndedKeeps(s, id, if s.requests[id].Resume? then Resumed else NotSubmitted(PreSubmitFailure));
    case SyncReturned(id) => ReadyKeeps(s, id);
    case Validate(id) => ValidateKeeps(s, id);
    case Answer(id, reply) => AnswerKeeps(s, id, reply);
    case Wake(id, timedOut) => WakeKeeps(s, id, timedOut);
    case Changed(thread, change) =>
      if !s.closed && thread in s.histories { RecordKeeps(s, thread, Agreement.Deliver(change, s.generation)); }
    case _ => ConnectionKeeps(s, e);
  }

  lemma {:induction false} RunKeeps(states: seq<Machine>, events: seq<Event>, i: nat)
    requires Run(states, events) && i < |states|
    ensures Inv(states[i])
  {
    if i > 0 {
      RunKeeps(states, events, i - 1);
      assert Enabled(states[i - 1], events[i - 1]);
      StepKeeps(states[i - 1], events[i - 1]);
    }
  }

  // ---------- what a confirmation means ----------

  /** What a confirmed command claims about the task. */
  datatype Claim = TurnExists(turn: TurnId) | DeliveryBound(delivery: DeliveryId, to: TurnId)

  predicate Holds(o: Observed, claim: Claim) {
    match claim
    case TurnExists(turn) => turn in o.turns
    case DeliveryBound(delivery, to) => delivery in o.bound && o.bound[delivery] == to
  }

  function ClaimOf(command: Command, turn: TurnId): Claim {
    match command
    case StartTurn(_) => TurnExists(turn)
    case SteerTurn(delivery, expected) => DeliveryBound(delivery, expected)
  }

  /** The j-th event is a change of this generation that was applied and made the claim true. */
  ghost predicate Introduces(h: History, j: nat, claim: Claim, generation: int, revision: int)
    requires j < |h|
  {
    && h[j].Deliver? && h[j].generation == generation
    && Verdict(Agreement.Exec(h[..j]), h[j].change, generation) == Applied
    && h[j].change.revision == Some(revision)
    && !Holds(Agreement.Exec(h[..j]).observed, claim)
    && Holds(Agreement.Exec(h[..j + 1]).observed, claim)
  }

  /** Within one unbroken window the generation stays and the revision never goes back. */
  lemma {:induction false} WindowAdvances(h: History, since: nat)
    requires since <= |h| && !Broken(h, since) && Agreement.Exec(h[..since]).revision.Some?
    ensures Agreement.Exec(h).generation == Agreement.Exec(h[..since]).generation
    ensures Agreement.Exec(h).revision.Some?
    ensures Agreement.Exec(h).revision.value >= Agreement.Exec(h[..since]).revision.value
  {
    if since == |h| {
      assert h[..since] == h;
    } else {
      var front := h[..|h| - 1];
      assert front[..since] == h[..since];
      forall j | since <= j < |front| ensures !Breaks(front[j]) { assert front[j] == h[j]; }
      assert !Breaks(h[|h| - 1]);
      WindowAdvances(front, since);
      Agreement.RevisionGrows(Agreement.Exec(front), h[|h| - 1]);
    }
  }

  /** A claim that became true in an unbroken window was made true by one applied change in it. */
  lemma {:induction false} ClaimIsIntroduced(h: History, since: nat, claim: Claim) returns (j: nat, revision: int)
    requires since <= |h| && !Broken(h, since) && Agreement.Exec(h[..since]).revision.Some?
    requires !Holds(Agreement.Exec(h[..since]).observed, claim) && Holds(Agreement.Exec(h).observed, claim)
    ensures since <= j < |h|
    ensures Introduces(h, j, claim, Agreement.Exec(h[..since]).generation, revision)
    ensures revision >= Agreement.Exec(h[..since]).revision.value
  {
    assert h[..|h|] == h;
    assert since < |h|;
    var front := h[..|h| - 1];
    assert front[..since] == h[..since];
    forall k | since <= k < |front| ensures !Breaks(front[k]) { assert front[k] == h[k]; }
    if Holds(Agreement.Exec(front).observed, claim) {
      j, revision := ClaimIsIntroduced(front, since, claim);
      assert front[..j] == h[..j] && front[..j + 1] == h[..j + 1];
    } else {
      j := |h| - 1;
      assert !Breaks(h[j]);
      WindowAdvances(front, since);
      assert h[j].Deliver?;
      revision := h[j].change.revision.value;
    }
  }

  /** With bindings that always list their identity, an unobserved delivery is an unbound one. */
  lemma {:induction false} BoundStaysSeen(h: History)
    requires forall e :: e in h && e.Deliver? ==> Agreement.Listed(e.change)
    ensures Agreement.BoundIsSeen(Agreement.Exec(h).observed)
  {
    if h != [] {
      var last := h[|h| - 1];
      assert last in h;
      BoundStaysSeen(h[..|h| - 1]);
      if last.Deliver? { Agreement.ContentKeepsSeen(Agreement.Exec(h[..|h| - 1]).observed, last.change); }
    }
  }

  /** The evidence of a confirmation: no break since the baseline, and one change in between that made it true. */
  ghost predicate Landed(h: History, since: nat, claim: Claim) {
    && since <= |h|
    && !Broken(h, since)
    && Agreement.Exec(h[..since]).revision.Some?
    && Agreement.Exec(h).generation == Agreement.Exec(h[..since]).generation
    && Holds(Agreement.Exec(h).observed, claim)
    && exists j, revision ::
         && since <= j < |h|
         && Introduces(h, j, claim, Agreement.Exec(h).generation, revision)
         && revision >= Agreement.Exec(h[..since]).revision.value
  }

  lemma EvidenceMeansLanded(h: History, since: nat, baseline: Baseline, command: Command, turn: TurnId)
    requires Evidence(h, since, baseline, command, turn)
    requires forall e :: e in h && e.Deliver? ==> Agreement.Listed(e.change)
    ensures Landed(h, since, ClaimOf(command, turn))
    ensures command.SteerTurn? ==> turn == command.expected
  {
    var before, now := Agreement.Exec(h[..since]), Agreement.Exec(h);
    var reported: Option<TurnId> :| ProvenTurn(command, now, reported, baseline) == Some(turn)
                                    && (command.SteerTurn? ==> reported == Some(command.expected));
    ProofMeans(command, before, now, reported);
    Agreement.IndexesStayLinked(h);
    BoundStaysSeen(h[..since]);
    var j, revision := ClaimIsIntroduced(h, since, ClaimOf(command, turn));
  }

  // ---------- main results ----------

  /** In every run, a confirmed injection landed: nothing broke the window and one applied change proves it. */
  lemma ConfirmedMeansLanded(states: seq<Machine>, events: seq<Event>, i: nat, id: CommandId)
    requires Run(states, events) && i < |states|
    requires id in states[i].pcs && states[i].pcs[id].Done? && states[i].pcs[id].outcome.Confirmed?
    requires forall t, e :: t in states[i].histories && e in states[i].histories[t] && e.Deliver? ==>
               Agreement.Listed(e.change)
    ensures var s, pc := states[i], states[i].pcs[id];
            && id in s.chain.slots && id in s.requests && s.requests[id].Inject?
            && ThreadOf(s, id) in s.histories && pc.upto <= |s.histories[ThreadOf(s, id)]|
            && Landed(s.histories[ThreadOf(s, id)][..pc.upto], pc.since,
                      ClaimOf(s.requests[id].command, pc.outcome.turn))
            && FitsActivity(s.requests[id].command, Agreement.Exec(s.histories[ThreadOf(s, id)][..pc.since]).observed)
  {
    RunKeeps(states, events, i);
    var s, pc := states[i], states[i].pcs[id];
    var h := s.histories[ThreadOf(s, id)][..pc.upto];
    forall e | e in h && e.Deliver? ensures Agreement.Listed(e.change) {
      assert e in s.histories[ThreadOf(s, id)];
    }
    EvidenceMeansLanded(h, pc.since, pc.evidence.value, s.requests[id].command, pc.outcome.turn);
    assert h[..pc.since] == s.histories[ThreadOf(s, id)][..pc.since];
  }

  /** Every change in the history is one that a server with these documents sends, its snapshots with all identities. */
  ghost predicate FromDocuments(h: History, server: Documents.Server) {
    Documents.AllHonest(h, server) && Documents.AllComplete(h, server)
  }

  /** The document itself bears the claim out. */
  ghost predicate Recorded(version: Documents.Version, claim: Claim) {
    match claim
    case TurnExists(turn) => Agreement.HasTurn(version.doc, turn)
    case DeliveryBound(delivery, to) => Documents.HeldBy(version, delivery, to)
  }

  lemma PrefixIsHonest(h: History, n: nat, server: Documents.Server)
    requires n <= |h| && FromDocuments(h, server)
    ensures FromDocuments(h[..n], server)
  {
    hide Documents.Honest, Documents.Complete;
    forall e | e in h[..n] ensures e in h {}
  }

  /** A replica knows a turn exactly if the document of its revision has it. */
  lemma TurnIsRecorded(h: History, turn: TurnId, server: Documents.Server)
    requires FromDocuments(h, server) && Agreement.Exec(h).revision.Some?
    ensures var now := Agreement.Exec(h);
            turn in now.observed.turns
            <==> Agreement.HasTurn(server(now.generation, now.revision.value).doc, turn)
  {
    hide Agreement.Exec, Documents.AllHonest, Documents.AllComplete;
    var now := Agreement.Exec(h);
    Documents.ReplicaAgrees(h, server);
    Agreement.IndexesStayLinked(h);
    Agreement.KnownTurnIsShown(now.observed, server(now.generation, now.revision.value).doc, turn);
  }

  /** A change that makes a claim true is strictly newer than the replica, or it is a snapshot of the replica's own
      revision, whose document binds the delivery: it never brings a turn that was not there. */
  lemma IntroducedIsNewer(h: History, j: nat, claim: Claim, generation: int, revision: int, server: Documents.Server)
    requires j < |h| && FromDocuments(h, server) && Introduces(h, j, claim, generation, revision)
    requires Agreement.Exec(h[..j]).revision.Some?
    ensures revision > Agreement.Exec(h[..j]).revision.value
            || (claim.DeliveryBound? && Some(revision) == Agreement.Exec(h[..j]).revision
                && Recorded(server(generation, revision), claim))
  {
    hide Agreement.Exec, FromDocuments, Documents.HeldBy, Agreement.HasTurn, SnapshotContent, PatchedContent;
    var before, after, change := Agreement.Exec(h[..j]), Agreement.Exec(h[..j + 1]), h[j].change;
    assert h[..j + 1] == h[..j] + [h[j]];
    Agreement.ExecAppend(h[..j], h[j]);
    if revision <= before.revision.value {
      PrefixIsHonest(h, j, server);
      PrefixIsHonest(h, j + 1, server);
      match claim
      case TurnExists(turn) =>
        TurnIsRecorded(h[..j], turn, server);
        TurnIsRecorded(h[..j + 1], turn, server);
        assert false;
      case DeliveryBound(delivery, to) => SnapshotRecords(h, j, delivery, server);
    }
  }

  lemma SnapshotRecords(h: History, j: nat, delivery: DeliveryId, server: Documents.Server)
    requires j < |h| && FromDocuments(h, server) && h[j].Deliver?
    requires h[j].change.Snapshot? && ValidRevision(h[j].change.revision)
    ensures var bound := SnapshotContent(h[j].change).bound;
            delivery in bound ==>
              Documents.HeldBy(server(h[j].generation, h[j].change.revision.value), delivery, bound[delivery])
  {
    hide SnapshotContent, Documents.HeldBy, Documents.ListsIdentities, Documents.ListsEntities, Documents.Consistent;
    assert h[j] in h;
    var version := server(h[j].generation, h[j].change.revision.value);
    Documents.SnapshotKnowsIdentities(h[j].change, version);
    assert Documents.BoundMatchesAt(SnapshotContent(h[j].change).bound, version, delivery);
  }

  /** When the changes come from a server's documents, the change that made a start's turn appear is strictly newer than
      the baseline; the one that bound a steer is, unless the baseline's own document already bound it. */
  lemma LandedIsNewer(h: History, since: nat, claim: Claim, server: Documents.Server, j: nat, revision: int)
    requires Landed(h, since, claim) && FromDocuments(h, server)
    requires since <= j < |h| && Introduces(h, j, claim, Agreement.Exec(h).generation, revision)
    ensures var before := Agreement.Exec(h[..since]);
            && revision >= before.revision.value
            && (claim.TurnExists? || !Recorded(server(before.generation, before.revision.value), claim) ==>
                  revision > before.revision.value)
  {
    hide Agreement.Exec, FromDocuments, Recorded, Introduces;
    RevisionHolds(h, since, j);
    IntroducedIsNewer(h, j, claim, Agreement.Exec(h).generation, revision, server);
  }

  /** The claim landed, by a change strictly newer than the baseline. */
  ghost predicate LandedNewer(h: History, since: nat, claim: Claim) {
    && Landed(h, since, claim)
    && exists j, revision ::
         && since <= j < |h|
         && Introduces(h, j, claim, Agreement.Exec(h).generation, revision)
         && revision > Agreement.Exec(h[..since]).revision.value
  }

  /** In every run, if the task's changes come from a server's documents: a confirmed start landed by a change strictly
      newer than its baseline, and so did a confirmed steer whose identity the baseline's document did not bind yet. */
  lemma ConfirmedIsNewer(states: seq<Machine>, events: seq<Event>, i: nat, id: CommandId, server: Documents.Server)
    requires Run(states, events) && i < |states|
    requires id in states[i].pcs && states[i].pcs[id].Done? && states[i].pcs[id].outcome.Confirmed?
    requires forall t, e :: t in states[i].histories && e in states[i].histories[t] && e.Deliver? ==>
               Agreement.Listed(e.change)
    requires id in states[i].chain.slots && ThreadOf(states[i], id) in states[i].histories
    requires FromDocuments(states[i].histories[ThreadOf(states[i], id)], server)
    ensures var s, pc := states[i], states[i].pcs[id];
            && id in s.requests && s.requests[id].Inject?
            && pc.upto <= |s.histories[ThreadOf(s, id)]| && pc.since <= pc.upto
    ensures var s, pc := states[i], states[i].pcs[id];
            var h, claim := s.histories[ThreadOf(s, id)][..pc.upto], ClaimOf(s.requests[id].command, pc.outcome.turn);
            var before := Agreement.Exec(h[..pc.since]);
            && before.revision.Some?
            && (s.requests[id].command.StartTurn?
                || !Recorded(server(before.generation, before.revision.value), claim) ==>
                  LandedNewer(h, pc.since, claim))
  {
    hide Agreement.Exec, FromDocuments, Recorded, Introduces, FitsActivity, Run, Holds;
    ConfirmedMeansLanded(states, events, i, id);
    var s, pc := states[i], states[i].pcs[id];
    var whole, claim := s.histories[ThreadOf(s, id)], ClaimOf(s.requests[id].command, pc.outcome.turn);
    var h := whole[..pc.upto];
    PrefixIsHonest(whole, pc.upto, server);
    var j, revision :| pc.since <= j < |h| && Introduces(h, j, claim, Agreement.Exec(h).generation, revision);
    LandedIsNewer(h, pc.since, claim, server, j, revision);
  }

  lemma RevisionHolds(h: History, since: nat, j: nat)
    requires since <= j <= |h| && !Broken(h, since) && Agreement.Exec(h[..since]).revision.Some?
    ensures Agreement.Exec(h[..j]).revision.Some?
    ensures Agreement.Exec(h[..j]).revision.value >= Agreement.Exec(h[..since]).revision.value
  {
    assert h[..j][..since] == h[..since];
    forall k | since <= k < |h[..j]| ensures !Breaks(h[..j][k]) { assert h[..j][k] == h[k]; }
    WindowAdvances(h[..j], since);
  }

  predicate NewerThan(change: Change, revision: int) {
    change.revision.Some? && change.revision.value > revision
  }

  /** Every change a replica can apply next is strictly newer than it if and only if it is synchronized. */
  lemma AppliedIsNewerExactlyWhenReady(s: Replica.State)
    requires s.connection == Connected && ValidRevision(s.revision)
    ensures (forall change :: Verdict(s, change, s.generation) == Applied ==> NewerThan(change, s.revision.value))
            <==> s.Ready()
  {
    if !s.Ready() {
      var again := Snapshot(s.revision, [], [], []);
      assert Verdict(s, again, s.generation) == Applied && !NewerThan(again, s.revision.value);
    }
  }

  /** Whether the next change of an unbroken window can fail to be strictly newer than the window's beginning. */
  predicate StaysStrict(s: Replica.State, baseline: int) {
    s.Ready() || (s.revision.Some? && s.revision.value > baseline)
  }

  /** Introducing the claim next, this change is strictly newer than the baseline. */
  ghost predicate NextIsNewer(h: History, change: Change, claim: Claim, baseline: int) {
    forall revision ::
      Introduces(h + [Agreement.Deliver(change, Agreement.Exec(h).generation)], |h|, claim,
                 Agreement.Exec(h).generation, revision)
      ==> revision > baseline
  }

  lemma StrictNext(h: History, change: Change, claim: Claim, baseline: int)
    requires Agreement.Exec(h).connection == Connected && Agreement.Exec(h).revision.Some?
    requires Agreement.Exec(h).revision.value >= baseline && StaysStrict(Agreement.Exec(h), baseline)
    ensures NextIsNewer(h, change, claim, baseline)
  {
    hide Agreement.Exec;
    Agreement.IndexesStayLinked(h);
    AppliedIsNewerExactlyWhenReady(Agreement.Exec(h));
    assert (h + [Agreement.Deliver(change, Agreement.Exec(h).generation)])[..|h|] == h;
  }

  /** In an unbroken window the next change to make any claim true is strictly newer than the baseline, whatever the
      server sends, if and only if the replica is synchronized or has moved past the baseline already. */
  lemma IntroductionIsStrictExactlyWhen(h: History, since: nat, key: Key, claim: Claim)
    requires since <= |h| && !Broken(h, since) && Agreement.Exec(h[..since]).revision.Some?
    requires Agreement.Exec(h).connection == Connected && !Holds(Agreement.Exec(h).observed, claim)
    ensures var baseline := Agreement.Exec(h[..since]).revision.value;
            (forall change :: NextIsNewer(h, change, claim, baseline)) <==> StaysStrict(Agreement.Exec(h), baseline)
  {
    hide Agreement.Exec, NextIsNewer, Holds;
    var now, baseline := Agreement.Exec(h), Agreement.Exec(h[..since]).revision.value;
    WindowAdvances(h, since);
    Agreement.IndexesStayLinked(h);
    if StaysStrict(now, baseline) {
      forall change ensures NextIsNewer(h, change, claim, baseline) { StrictNext(h, change, claim, baseline); }
    } else {
      ClaimedHolds(claim, key, baseline);
      SnapshotIntroduces(h, Claimed(claim, key, baseline), claim, baseline);
    }
  }

  /** A snapshot with one entity that makes the claim true. */
  function Claimed(claim: Claim, key: Key, revision: int): Change {
    match claim
    case TurnExists(turn) => Snapshot(Some(revision), [Entity(key, Turn(turn, InProgress, None))], [], [])
    case DeliveryBound(d, to) => Documents.OneTurnSnapshot(revision, key, to, d)
  }

  lemma ClaimedHolds(claim: Claim, key: Key, revision: int)
    ensures Claimed(claim, key, revision).Snapshot? && Claimed(claim, key, revision).revision == Some(revision)
    ensures Holds(SnapshotContent(Claimed(claim, key, revision)), claim)
  {
    match claim
    case TurnExists(turn) => OneTurnSnapshot(key, Turn(turn, InProgress, None), Some(revision));
    case DeliveryBound(d, to) => Documents.OneTurnContent(revision, key, to, d);
  }

  /** A replica that lost its synchronization takes any snapshot of its own revision, with whatever it brings. */
  lemma SnapshotIntroduces(h: History, change: Change, claim: Claim, baseline: int)
    requires var now := Agreement.Exec(h);
             && now.connection == Connected && !now.Ready() && now.revision == Some(baseline)
             && !Holds(now.observed, claim)
    requires change.Snapshot? && change.revision == Some(baseline) && ValidRevision(change.revision)
    requires Holds(SnapshotContent(change), claim)
    ensures !NextIsNewer(h, change, claim, baseline)
  {
    hide Holds, SnapshotContent;
    var now := Agreement.Exec(h);
    var after := h + [Agreement.Deliver(change, now.generation)];
    Agreement.ExecAppend(h, Agreement.Deliver(change, now.generation));
    assert after[..|h|] == h && after[..|h| + 1] == after;
    assert Introduces(after, |h|, claim, now.generation, baseline);
  }

  lemma OneTurnSnapshot(key: Key, turn: Turn, revision: Option<int>)
    ensures SnapshotContent(Snapshot(revision, [Entity(key, turn)], [], [])) == BindTurn(EMPTY, key, turn)
    ensures turn.id in BindTurn(EMPTY, key, turn).turns
  {
    var entities := [Entity(key, turn)];
    assert entities[..0] == [];
    assert BindEntities(EMPTY, entities) == BindTurn(EMPTY, key, turn);
    assert Seen(BindTurn(EMPTY, key, turn), []) == BindTurn(EMPTY, key, turn);
  }

  /** What a server with these documents may send next. */
  ghost predicate MaySend(change: Change, generation: int, server: Documents.Server) {
    Documents.Honest(change, generation, server) && Documents.Complete(change, generation, server)
  }

  /** In an unbroken window under a server with documents, the next change it may send to make the claim true is
      strictly newer than the baseline if and only if the replica is synchronized, or past the baseline already, or the
      document of the baseline does not bear the claim out. */
  lemma HonestIntroductionIsStrictExactlyWhen(h: History, since: nat, claim: Claim, server: Documents.Server)
    requires since <= |h| && !Broken(h, since) && Agreement.Exec(h[..since]).revision.Some?
    requires Agreement.Exec(h).connection == Connected && !Holds(Agreement.Exec(h).observed, claim)
    requires FromDocuments(h, server)
    ensures var before := Agreement.Exec(h[..since]);
            (forall change :: MaySend(change, Agreement.Exec(h).generation, server) ==>
               NextIsNewer(h, change, claim, before.revision.value))
            <==> StaysStrict(Agreement.Exec(h), before.revision.value)
                 || !Recorded(server(before.generation, before.revision.value), claim)
  {
    hide Agreement.Exec, NextIsNewer, Holds, FromDocuments, MaySend, Recorded;
    var before, now := Agreement.Exec(h[..since]), Agreement.Exec(h);
    var baseline, version := before.revision.value, server(before.generation, before.revision.value);
    WindowAdvances(h, since);
    Agreement.IndexesStayLinked(h);
    if StaysStrict(now, baseline) {
      forall change ensures NextIsNewer(h, change, claim, baseline) { StrictNext(h, change, claim, baseline); }
    } else if !Recorded(version, claim) {
      forall change | MaySend(change, now.generation, server) ensures NextIsNewer(h, change, claim, baseline) {
        UnrecordedIsNewer(h, change, claim, server);
      }
    } else {
      var change := RecordedAgain(h, claim, server);
      SnapshotIntroduces(h, change, claim, baseline);
    }
  }

  /** What the document of the replica's revision does not record, no change of that revision brings. */
  lemma UnrecordedIsNewer(h: History, change: Change, claim: Claim, server: Documents.Server)
    requires FromDocuments(h, server) && MaySend(change, Agreement.Exec(h).generation, server)
    requires Agreement.Exec(h).revision.Some?
    requires !Recorded(server(Agreement.Exec(h).generation, Agreement.Exec(h).revision.value), claim)
    ensures NextIsNewer(h, change, claim, Agreement.Exec(h).revision.value)
  {
    hide Agreement.Exec, Recorded, Holds, Introduces, Documents.Honest, Documents.Complete;
    var now := Agreement.Exec(h);
    var after := h + [Agreement.Deliver(change, now.generation)];
    assert FromDocuments(after, server);
    assert after[..|h|] == h;
    forall revision | Introduces(after, |h|, claim, now.generation, revision) ensures revision > now.revision.value {
      IntroducedIsNewer(after, |h|, claim, now.generation, revision, server);
    }
  }

  /** What the document of its revision records, a replica that lacks it may be told by another snapshot of it. */
  lemma RecordedAgain(h: History, claim: Claim, server: Documents.Server) returns (change: Change)
    requires FromDocuments(h, server) && Agreement.Exec(h).revision.Some?
    requires var now := Agreement.Exec(h);
             Recorded(server(now.generation, now.revision.value), claim) && !Holds(now.observed, claim)
    ensures change.Snapshot? && change.revision == Agreement.Exec(h).revision
    ensures MaySend(change, Agreement.Exec(h).generation, server) && Holds(SnapshotContent(change), claim)
  {
    hide Agreement.Exec, FromDocuments, SnapshotContent, Agreement.HasTurn, Documents.WholeSnapshot;
    hide Documents.ListsEntities, Documents.ListsIdentities, Documents.Consistent, Agreement.Mirrors;
    var now := Agreement.Exec(h);
    var version := server(now.generation, now.revision.value);
    match claim {
      case TurnExists(turn) =>
        TurnIsRecorded(h, turn, server);
        assert false;
      case DeliveryBound(d, to) =>
        var holder :| holder in version.doc && version.doc[holder].turn == Some(to)
                      && holder in version.texts && d in version.texts[holder];
        change := Documents.WholeSnapshot(now.revision, version, holder, d);
        Documents.WholeSnapshotLists(now.revision, version, holder, d);
        ReplicaIsConsistent(h, server);
        Documents.SnapshotKnowsIdentities(change, version);
        assert Documents.BoundMatchesAt(SnapshotContent(change).bound, version, d);
        assert Documents.HeldBy(version, d, to) && Agreement.Shows(version.doc, holder);
    }
  }

  lemma ReplicaIsConsistent(h: History, server: Documents.Server)
    requires FromDocuments(h, server) && Agreement.Exec(h).revision.Some?
    ensures Documents.Consistent(server(Agreement.Exec(h).generation, Agreement.Exec(h).revision.value).doc)
  {
    hide Agreement.Exec, Documents.AllHonest;
    Documents.ReplicaAgrees(h, server);
    Documents.MirroredIsConsistent(Agreement.Exec(h).observed,
                                   server(Agreement.Exec(h).generation, Agreement.Exec(h).revision.value).doc);
  }

  /** So a proven change that is not strictly newer came to a replica that had left synchronization in the window. */
  lemma LandedIsNewerUnlessDesynchronized(h: History, since: nat, claim: Claim, j: nat, revision: int)
    requires Landed(h, since, claim)
    requires since <= j < |h| && Introduces(h, j, claim, Agreement.Exec(h).generation, revision)
    ensures revision > Agreement.Exec(h[..since]).revision.value
            || (!Agreement.Exec(h[..j]).Ready() && Agreement.Exec(h[..j]).revision == Some(revision))
  {
    hide Agreement.Exec, Holds;
    RevisionHolds(h, since, j);
    Agreement.IndexesStayLinked(h[..j]);
    AppliedIsNewerExactlyWhenReady(Agreement.Exec(h[..j]));
  }

  /** One command of a task is in flight at a time, in arrival order. */
  lemma OneCommandInFlight(states: seq<Machine>, events: seq<Event>, i: nat, a: CommandId, b: CommandId)
    requires Run(states, events) && i < |states|
    requires a in states[i].pcs && b in states[i].pcs && !states[i].pcs[a].Done? && !states[i].pcs[b].Done?
    requires a in states[i].chain.slots && b in states[i].chain.slots
    requires ThreadOf(states[i], a) == ThreadOf(states[i], b)
    ensures a == b
  {
    RunKeeps(states, events, i);
    Alone(states[i], a, b);
  }

  /** The serialization is needed: a second synchronization inside the window would go unnoticed by the proof. */
  lemma RefollowingWouldGoUnnoticed(key: Key, turn: TurnId, delivery: DeliveryId)
    ensures var novel := Turn(turn, InProgress, None);
            var h := [Agreement.Follow(1), Agreement.Deliver(Snapshot(Some(5), [], [], []), 1),
                      Agreement.Connect, Agreement.Follow(1),
                      Agreement.Deliver(Snapshot(Some(6), [Entity(key, novel)], [], []), 1)];
            && Broken(h, 2)
            && ProvesInjection(StartTurn(delivery), Agreement.Exec(h), turn,
                               CaptureProof(StartTurn(delivery), Agreement.Exec(h[..2])))
  {
    var novel := Turn(turn, InProgress, None);
    var e := [Agreement.Follow(1), Agreement.Deliver(Snapshot(Some(5), [], [], []), 1),
              Agreement.Connect, Agreement.Follow(1),
              Agreement.Deliver(Snapshot(Some(6), [Entity(key, novel)], [], []), 1)];
    assert e[..1] == [] + [e[0]] && e[..2] == e[..1] + [e[1]] && e[..3] == e[..2] + [e[2]];
    assert e[..4] == e[..3] + [e[3]] && e == e[..4] + [e[4]];
    Agreement.ExecAppend([], e[0]);
    Agreement.ExecAppend(e[..1], e[1]);
    Agreement.ExecAppend(e[..2], e[2]);
    Agreement.ExecAppend(e[..3], e[3]);
    Agreement.ExecAppend(e[..4], e[4]);
    assert Breaks(e[2]);
    assert BindEntities(EMPTY, [Entity(key, novel)]) == BindTurn(EMPTY, key, novel);
  }
}
