/**
 * The Desktop attachment: commands serialized per task, interleaved with the
 * changes and connection events of the session. A task's replica is the result
 * of everything that happened to it, so the machine keeps that history.
 */
module Attachment {
  import opened Types
  import opened Replica
  import opened Injection
  import Agreement = ReplicaAgreement
  import Serialize

  type CommandId = Serialize.CommandId

  type History = seq<Agreement.Event>

  /** The Desktop reply to one command, as the protocol layer reports it. */
  datatype Reply =
    | Accepted(turn: Option<TurnId>)
    | Refused(notWritten: bool, confirmed: bool)
    | Threw(notWritten: bool)

  /** Why nothing was submitted, as the coordinator is told. */
  datatype Reason = PreSubmitFailure | TaskBusy | ConfirmedNotSubmitted

  datatype Outcome = Confirmed(turn: TurnId) | NotSubmitted(reason: Reason) | Ambiguous | Rejected | Resumed

  datatype Request = Resume | Inject(command: Command)

  /** Where a started command stands. `since` is how much of the task's history its baseline covers. */
  datatype Pc =
    | Synchronizing
    | InSync
    | Injected(since: nat, baseline: Baseline)
    | Proving(since: nat, baseline: Baseline, turn: Option<TurnId>)
    | Done(outcome: Outcome, since: nat, evidence: Option<Baseline>, upto: nat)

  datatype Machine = Machine(
    closed: bool,
    generation: int,
    histories: map<ThreadId, History>,
    chain: Serialize.Chain,
    requests: map<CommandId, Request>,
    pcs: map<CommandId, Pc>)

  datatype Event =
    | Look(thread: ThreadId)
    | Issue(id: CommandId, thread: ThreadId, request: Request)
    | Begin(id: CommandId, linked: bool)
    | SyncFailed(id: CommandId)
    | SyncReturned(id: CommandId)
    | Validate(id: CommandId)
    | Answer(id: CommandId, reply: Reply)
    | Wake(id: CommandId, timedOut: bool)
    | Changed(thread: ThreadId, change: Change)
    | Reconnecting
    | Reconnected
    | Lost
    | Close

  const INITIAL := Machine(false, 1, map[], Serialize.EMPTY, map[], map[])

  function Replicated(s: Machine, thread: ThreadId): Replica.State
    requires thread in s.histories
  {
    Agreement.Exec(s.histories[thread])
  }

  function Record(s: Machine, thread: ThreadId, e: Agreement.Event): Machine
    requires thread in s.histories
  {
    s.(histories := s.histories[thread := s.histories[thread] + [e]])
  }

  function ThreadOf(s: Machine, id: CommandId): ThreadId
    requires id in s.chain.slots
  {
    s.chain.slots[id].thread
  }

  function SetPc(s: Machine, id: CommandId, pc: Pc): Machine {
    s.(pcs := s.pcs[id := pc])
  }

  /** The injection mark each outcome leaves on the task. */
  function MarkOf(outcome: Outcome): Replica.Injection {
    match outcome
    case Confirmed(_) => InjectionConfirmed
    case Ambiguous => Uncertain
    case Rejected => InjectionRejected
    case _ => NoInjection
  }

  function DonePc(pc: Pc, outcome: Outcome, upto: nat): Pc {
    if pc.Proving? then Done(outcome, pc.since, Some(pc.baseline), upto) else Done(outcome, 0, None, upto)
  }

  function Release(s: Machine, id: CommandId, done: Pc): Machine
    requires Serialize.IsRunning(s.chain, id)
  {
    SetPc(s, id, done).(chain := Serialize.Release(s.chain, id))
  }

  /** The command ends: the injection mark is set, its outcome recorded and the chain released. */
  function Ended(s: Machine, id: CommandId, outcome: Outcome): Machine
    requires Serialize.IsRunning(s.chain, id) && ThreadOf(s, id) in s.histories && id in s.pcs
  {
    var thread := ThreadOf(s, id);
    var done := DonePc(s.pcs[id], outcome, |s.histories[thread]|);
    Release(if outcome.Resumed? then s else Record(s, thread, Agreement.Mark(MarkOf(outcome))), id, done)
  }

  /** A task gets its replica from whatever asks for it first: its first command or a look at its state. */
  function Known(s: Machine, thread: ThreadId): Machine {
    if thread in s.histories then s else s.(histories := s.histories[thread := []])
  }

  /** The task is known and its command runs. */
  function Started(s: Machine, id: CommandId): Machine
    requires Serialize.MayStart(s.chain, id)
  {
    SetPc(Known(s, ThreadOf(s, id)), id, Synchronizing).(chain := Serialize.Start(s.chain, id))
  }

  /** `synchronize` up to its first wait. */
  function Attach(s: Machine, thread: ThreadId, linked: bool): Machine
    requires thread in s.histories
  {
    var state := Replicated(s, thread);
    if state.attachment == Following && state.generation == s.generation then s
    else if linked then Record(s, thread, Agreement.Follow(s.generation))
    else Record(s, thread, Agreement.Connect)
  }

  /** A start needs an idle task, a steer exactly its expected turn running. */
  predicate ValidationFails(command: Command, o: Observed) {
    var active := set id | id in o.turns && ActiveTurn(o, id);
    || |active| > 1
    || (command.StartTurn? && active != {})
    || (command.SteerTurn? && active != {command.expected})
  }

  /** A task is busy for a start when any turn runs, and for a steer when several do. */
  function Unfit(command: Command, o: Observed): Reason {
    var active := set id | id in o.turns && ActiveTurn(o, id);
    if |active| > 1 || (command.StartTurn? && active != {}) then TaskBusy else PreSubmitFailure
  }

  predicate Enabled(s: Machine, e: Event) {
    match e
    case Issue(id, _, _) => id !in s.chain.slots && id !in s.pcs
    case Begin(id, _) => Serialize.MayStart(s.chain, id) && id in s.requests
    case SyncFailed(id) => At(s, id) && s.pcs[id].Synchronizing?
    case SyncReturned(id) => At(s, id) && s.pcs[id].Synchronizing? && Replicated(s, ThreadOf(s, id)).Ready()
    case Validate(id) => At(s, id) && s.pcs[id].InSync?
    case Answer(id, _) => At(s, id) && s.pcs[id].Injected? && s.requests[id].Inject?
    case Wake(id, _) => At(s, id) && s.pcs[id].Proving? && s.requests[id].Inject?
    case _ => true
  }

  predicate At(s: Machine, id: CommandId) {
    && Serialize.IsRunning(s.chain, id) && id in s.pcs && id in s.requests
    && ThreadOf(s, id) in s.histories
  }

  function RecordAll(s: Machine, e: Agreement.Event): Machine {
    s.(histories := map t | t in s.histories :: s.histories[t] + [e])
  }

  function Step(s: Machine, e: Event): Machine
    requires Enabled(s, e)
  {
    match e
    case Look(thread) => Known(s, thread)
    case Issue(id, thread, request) =>
      s.(chain := Serialize.Arrive(s.chain, id, thread), requests := s.requests[id := request])
    case Begin(id, linked) =>
      var thread := ThreadOf(s, id);
      var started := Started(s, id);
      var marked := if s.requests[id].Inject? then Record(started, thread, Agreement.Mark(NoInjection)) else started;
      if s.closed then marked
      else if Replicated(marked, thread).Ready() then SetPc(marked, id, InSync)
      else Attach(marked, thread, linked)
    case SyncFailed(id) => Ended(s, id, if s.requests[id].Resume? then Resumed else NotSubmitted(PreSubmitFailure))
    case SyncReturned(id) => SetPc(s, id, InSync)
    case Validate(id) =>
      if s.requests[id].Resume? then Ended(s, id, Resumed)
      else
        var thread := ThreadOf(s, id);
        var command := s.requests[id].command;
        if ValidationFails(command, Replicated(s, thread).observed)
        then Ended(s, id, NotSubmitted(Unfit(command, Replicated(s, thread).observed)))
        else
          var pc := Injected(|s.histories[thread]|, CaptureProof(command, Replicated(s, thread)));
          SetPc(Record(s, thread, Agreement.Mark(Injecting)), id, pc)
    case Answer(id, reply) =>
      var pc := s.pcs[id];
      var command := s.requests[id].command;
      match reply {
        case Refused(notWritten, confirmed) =>
          Ended(s, id, if !notWritten then Rejected
                       else NotSubmitted(if confirmed then ConfirmedNotSubmitted else PreSubmitFailure))
        case Threw(notWritten) =>
          if notWritten then Ended(s, id, NotSubmitted(PreSubmitFailure))
          else SetPc(s, id, Proving(pc.since, pc.baseline, if command.SteerTurn? then Some(command.expected) else None))
        case Accepted(turn) =>
          SetPc(s, id, Proving(pc.since, pc.baseline, if command.SteerTurn? then Some(command.expected) else turn))
      }
    case Wake(id, timedOut) =>
      var pc := s.pcs[id];
      var proven := ProvenTurn(s.requests[id].command, Replicated(s, ThreadOf(s, id)), pc.turn, pc.baseline);
      Ended(s, id, if timedOut || proven.None? then Ambiguous else Confirmed(proven.value))
    case Changed(thread, change) =>
      if s.closed || thread !in s.histories then s
      else Record(s, thread, Agreement.Deliver(change, s.generation))
    case Reconnecting =>
      if s.closed then s
      else RecordAll(s.(generation := s.generation + 1), Agreement.Follow(s.generation + 1))
    case Reconnected =>
      if s.closed then s
      else s.(histories := map t | t in s.histories ::
                if Agreement.Exec(s.histories[t]).connection == Connecting
                then s.histories[t] + [Agreement.Follow(s.generation)] else s.histories[t])
    case Lost => if s.closed then s else RecordAll(s, Agreement.Drop)
    case Close => if s.closed then s else RecordAll(s.(closed := true), Agreement.Drop)
  }

  ghost predicate Run(states: seq<Machine>, events: seq<Event>) {
    && |states| == |events| + 1
    && states[0] == INITIAL
    && forall i :: 0 <= i < |events| ==> Enabled(states[i], events[i]) && states[i + 1] == Step(states[i], events[i])
  }
}
