/** The canonical event stream of one task: coalesced refreshes, history diffs and the state they fold back to. */
module TaskEvents {
  import opened Types

  datatype TurnStatus = Completed | Interrupted | Failed | InProgress

  datatype LocalTurn = LocalTurn(id: TurnId, status: TurnStatus, deliveries: seq<DeliveryId>)

  type History = seq<LocalTurn>

  datatype TaskEvent = Snapshot(history: History) | TurnChanged(turn: LocalTurn) | TaskRemoved

  predicate SameTurn(left: LocalTurn, right: LocalTurn) {
    && left.id == right.id && left.status == right.status
    && |left.deliveries| == |right.deliveries|
    && forall i :: 0 <= i < |left.deliveries| ==> left.deliveries[i] == right.deliveries[i]
  }

  lemma SameTurnIsEquality(left: LocalTurn, right: LocalTurn)
    ensures SameTurn(left, right) <==> left == right
  {
    if SameTurn(left, right) { assert left.deliveries == right.deliveries; }
  }

  /** The last turn listed under each identity. */
  function ById(history: History): map<TurnId, LocalTurn> {
    if history == [] then map[]
    else ById(history[..|history| - 1])[history[|history| - 1].id := history[|history| - 1]]
  }

  /** One event for every turn that is new or differs from the previous history; vanished turns are not reported. */
  function ChangedTurns(previous: History, next: History): seq<TaskEvent> {
    if next == [] then []
    else
      var turn := next[|next| - 1];
      var before := ById(previous);
      ChangedTurns(previous, next[..|next| - 1])
      + if turn.id in before && SameTurn(before[turn.id], turn) then [] else [TurnChanged(turn)]
  }

  /** What a consumer that replays the events knows about each turn. */
  function Known(events: seq<TaskEvent>): map<TurnId, LocalTurn> {
    if events == [] then map[]
    else
      var before := Known(events[..|events| - 1]);
      match events[|events| - 1]
      case Snapshot(history) => ById(history)
      case TurnChanged(turn) => before[turn.id := turn]
      case TaskRemoved => before
  }

  ghost predicate Distinct(history: History) {
    forall i, j :: 0 <= i < j < |history| ==> history[i].id != history[j].id
  }

  /** Replaying gives every turn of the history as it is there. */
  ghost predicate Reproduces(known: map<TurnId, LocalTurn>, history: History) {
    forall i :: 0 <= i < |history| ==> history[i].id in known && known[history[i].id] == history[i]
  }

  lemma {:induction false} ByIdReproduces(history: History)
    requires Distinct(history)
    ensures Reproduces(ById(history), history)
    ensures forall id :: id in ById(history) ==> ById(history)[id] in history && ById(history)[id].id == id
  {
    if history != [] { ByIdReproduces(history[..|history| - 1]); }
  }

  /** Only turns of the next history are reported, each as it is there and not as the previous one ended with it. */
  lemma {:induction false} ChangesComeFromNext(previous: History, next: History, k: nat)
    requires k < |ChangedTurns(previous, next)|
    ensures ChangedTurns(previous, next)[k].TurnChanged? && ChangedTurns(previous, next)[k].turn in next
    ensures var turn := ChangedTurns(previous, next)[k].turn;
            !(turn.id in ById(previous) && ById(previous)[turn.id] == turn)
  {
    var turn := next[|next| - 1];
    if turn.id in ById(previous) { SameTurnIsEquality(ById(previous)[turn.id], turn); }
    if k < |ChangedTurns(previous, next[..|next| - 1])| { ChangesComeFromNext(previous, next[..|next| - 1], k); }
  }

  /** The last turn under this identity that the diff reports. */
  function LastReported(previous: History, next: History, id: TurnId): Option<LocalTurn> {
    if next == [] then None
    else
      var turn := next[|next| - 1];
      if turn.id == id && !(id in ById(previous) && ById(previous)[id] == turn) then Some(turn)
      else LastReported(previous, next[..|next| - 1], id)
  }

  /** Replaying a diff sets each turn to its last report and leaves the others alone. */
  lemma {:induction false} ReplayIsLastReport(events: seq<TaskEvent>, previous: History, next: History, id: TurnId)
    ensures var known, reported := Known(events + ChangedTurns(previous, next)), LastReported(previous, next, id);
            && (id in known <==> reported.Some? || id in Known(events))
            && (reported.Some? ==> known[id] == reported.value)
            && (reported.None? && id in known ==> known[id] == Known(events)[id])
  {
    if next == [] {
      assert events + [] == events;
    } else {
      var front, turn := next[..|next| - 1], next[|next| - 1];
      var diff := ChangedTurns(previous, front);
      ReplayIsLastReport(events, previous, front, id);
      if turn.id in ById(previous) { SameTurnIsEquality(ById(previous)[turn.id], turn); }
      if turn.id in ById(previous) && ById(previous)[turn.id] == turn {
        assert diff + [] == diff;
      } else {
        assert events + (diff + [TurnChanged(turn)]) == (events + diff) + [TurnChanged(turn)];
        assert ((events + diff) + [TurnChanged(turn)])[..|events + diff|] == events + diff;
      }
    }
  }

  predicate Lists(history: History, id: TurnId) {
    exists i :: 0 <= i < |history| && history[i].id == id
  }

  /** The next history ends a turn as the previous one had it, after listing it otherwise: only the latter is
      reported. */
  predicate HiddenChange(previous: History, next: History, id: TurnId) {
    && id in ById(previous) && id in ById(next) && ById(next)[id] == ById(previous)[id]
    && exists i :: 0 <= i < |next| && next[i].id == id && next[i] != ById(previous)[id]
  }

  lemma {:induction false} ListedIsById(history: History, id: TurnId)
    ensures id in ById(history) <==> Lists(history, id)
    ensures id in ById(history) ==> ById(history)[id] in history && ById(history)[id].id == id
  {
    if history != [] {
      var n := |history| - 1;
      ListedIsById(history[..n], id);
      if Lists(history[..n], id) {
        var i :| 0 <= i < n && history[..n][i].id == id;
        assert history[i].id == id;
      }
      if Lists(history, id) && history[n].id != id {
        var i :| 0 <= i < |history| && history[i].id == id;
        assert history[..n][i].id == id;
      }
    }
  }

  /** The last report, if there is one, is the last listing that differs from the previous history. */
  lemma {:induction false} LastReportedMeans(previous: History, next: History, id: TurnId)
    requires id in ById(next)
    ensures var reported, prior := LastReported(previous, next, id), ById(previous);
            && (reported.None? ==> id in prior && ById(next)[id] == prior[id])
            && (reported.Some? && !(id in prior && ById(next)[id] == prior[id]) ==> reported.value == ById(next)[id])
            && (reported.Some? && id in prior ==> reported.value != prior[id])
            && (id in prior ==>
                  (reported.Some? <==> exists i :: 0 <= i < |next| && next[i].id == id && next[i] != prior[id]))
  {
    var n := |next| - 1;
    var front, turn := next[..n], next[n];
    if turn.id != id {
      LastReportedMeans(previous, front, id);
    } else if id in ById(previous) && ById(previous)[id] == turn && id in ById(front) {
      LastReportedMeans(previous, front, id);
    } else {
      ListedIsById(front, id);
      NotListedNotReported(previous, front, id);
    }
    if exists i :: 0 <= i < n && front[i].id == id && id in ById(previous) && front[i] != ById(previous)[id] {
      var i :| 0 <= i < n && front[i].id == id && front[i] != ById(previous)[id];
      assert next[i] == front[i];
    }
    if exists i :: 0 <= i < n && next[i].id == id && id in ById(previous) && next[i] != ById(previous)[id] {
      var i :| 0 <= i < n && next[i].id == id && next[i] != ById(previous)[id];
      assert front[i] == next[i];
      ListedIsById(front, id);
    }
  }

  lemma {:induction false} NotListedNotReported(previous: History, next: History, id: TurnId)
    ensures !Lists(next, id) ==> LastReported(previous, next, id).None?
  {
    if next != [] && !Lists(next, id) {
      var n := |next| - 1;
      assert next[n].id != id;
      forall i | 0 <= i < n ensures next[..n][i].id != id { assert next[i].id != id; }
      NotListedNotReported(previous, next[..n], id);
    }
  }

  /** The consumer knows this turn as the history ends with it. */
  predicate Tells(known: map<TurnId, LocalTurn>, history: History, id: TurnId) {
    id in known && id in ById(history) && known[id] == ById(history)[id]
  }

  /** The next history lists this turn somewhere otherwise than the previous one ended with it. */
  predicate Relists(previous: History, next: History, id: TurnId) {
    exists i :: 0 <= i < |next| && next[i].id == id && !(id in ById(previous) && next[i] == ById(previous)[id])
  }

  /** Whatever the consumer knew: after the diff it knows the turn as the next history ends with it if and only if the
      diff does not hide that, and the turn was either listed anew or known before. */
  lemma DiffTells(events: seq<TaskEvent>, previous: History, next: History, id: TurnId)
    requires id in ById(next)
    ensures Tells(Known(events + ChangedTurns(previous, next)), next, id)
            <==> !HiddenChange(previous, next, id)
                 && (Relists(previous, next, id) || Tells(Known(events), previous, id))
  {
    ReplayIsLastReport(events, previous, next, id);
    LastReportedMeans(previous, next, id);
    ListedIsById(next, id);
  }

  /** Replaying a diff gives a turn as the next history ends with it if and only if the diff does not hide its
      change. */
  lemma DiffReproducesExactly(events: seq<TaskEvent>, previous: History, next: History, id: TurnId)
    requires id in ById(next)
    requires id in ById(previous) ==> id in Known(events) && Known(events)[id] == ById(previous)[id]
    ensures var known := Known(events + ChangedTurns(previous, next));
            (id in known && known[id] == ById(next)[id]) <==> !HiddenChange(previous, next, id)
  {
    DiffTells(events, previous, next, id);
    ListedIsById(next, id);
  }

  /** Replaying gives every turn as the history ends with it. */
  ghost predicate Replays(known: map<TurnId, LocalTurn>, history: History) {
    forall id :: id in ById(history) ==> id in known && known[id] == ById(history)[id]
  }

  ghost predicate NothingHidden(previous: History, next: History) {
    forall id :: !HiddenChange(previous, next, id)
  }

  lemma DiffReplaysExactly(events: seq<TaskEvent>, previous: History, next: History)
    requires Replays(Known(events), previous)
    ensures Replays(Known(events + ChangedTurns(previous, next)), next) <==> NothingHidden(previous, next)
  {
    forall id | id in ById(next)
      ensures (id in Known(events + ChangedTurns(previous, next))
               && Known(events + ChangedTurns(previous, next))[id] == ById(next)[id])
              <==> !HiddenChange(previous, next, id)
    {
      DiffReproducesExactly(events, previous, next, id);
    }
  }

  /** After a diff of histories with distinct turns is replayed, every turn of the next one is known as it is there. */
  lemma DiffReproduces(events: seq<TaskEvent>, previous: History, next: History)
    requires Reproduces(Known(events), previous) && Distinct(previous) && Distinct(next)
    ensures Reproduces(Known(events + ChangedTurns(previous, next)), next)
  {
    ByIdReproduces(previous);
    ByIdReproduces(next);
    forall i | 0 <= i < |next|
      ensures next[i].id in Known(events + ChangedTurns(previous, next))
              && Known(events + ChangedTurns(previous, next))[next[i].id] == next[i]
    {
      var id := next[i].id;
      DistinctHidesNothing(previous, next, id);
      DiffReproducesExactly(events, previous, next, id);
    }
  }

  lemma DistinctHidesNothing(previous: History, next: History, id: TurnId)
    requires Distinct(next)
    ensures !HiddenChange(previous, next, id)
  {
    ByIdReproduces(next);
  }

  /** Distinct identities are needed: a duplicate can hide the report of the turn that counts. */
  lemma DuplicateHidesChange(id: TurnId)
    ensures var done, running := LocalTurn(id, Completed, []), LocalTurn(id, InProgress, []);
            var events := [Snapshot([done])] + ChangedTurns([done], [running, done]);
            && !Distinct([running, done])
            && id in Known(events) && Known(events)[id] == running && ById([running, done])[id] == done
  {
    var done, running := LocalTurn(id, Completed, []), LocalTurn(id, InProgress, []);
    assert [running, done][..1] == [running] && [running][..0] == [] && [done][..0] == [];
    assert ById([done]) == map[id := done];
    assert ChangedTurns([done], [running]) == [TurnChanged(running)];
    assert ChangedTurns([done], [running, done]) == [TurnChanged(running)];
    var events := [Snapshot([done])] + [TurnChanged(running)];
    assert events[..1] == [Snapshot([done])] && [Snapshot([done])][..0] == [];
  }

  // ---------- the source of the stream ----------

  datatype Signal = Refresh | Gone | Lost

  datatype Notice = StateChanged | TaskDeleted | ConnectionClosed | Irrelevant

  /** `Loading` has not read yet, `Read` holds the history read and not yet delivered. */
  datatype Phase = Subscribed | Loading | Read(history: History) | Streaming | Ended

  /**
   * The queue, flags and previous history of one stream, with the observer's knowledge:
   * the server's current history, whether a change of it is still unannounced, and
   * whether a state notice arrived since the latest load began.
   */
  datatype State = State(
    queue: seq<Signal>,
    refreshQueued: bool,
    removed: bool,
    closed: bool,
    phase: Phase,
    previous: Option<History>,
    emitted: seq<TaskEvent>,
    server: History,
    unannounced: bool,
    noticed: bool)

  datatype Event =
    | ServerChanges(history: History)
    | Notify(notice: Notice)
    | BeginFirstLoad
    | TakeSignal
    | ReadHistory
    | DeliverHistory
    | LoadFails

  function Init(server: History): State {
    State([], false, false, false, Subscribed, None, [], server, false, false)
  }

  predicate Enabled(s: State, e: Event) {
    match e
    case ServerChanges(_) => true
    case Notify(_) => true
    case BeginFirstLoad => s.phase.Subscribed?
    case TakeSignal => s.phase.Streaming? && s.queue != []
    case ReadHistory => s.phase.Loading?
    case DeliverHistory => s.phase.Read?
    case LoadFails => s.phase.Loading? || s.phase.Read?
  }

  /** The subscription callback: at most one refresh is ever waiting. */
  function OnNotice(s: State, notice: Notice): State {
    match notice
    case ConnectionClosed => if s.closed then s else s.(closed := true, queue := s.queue + [Lost])
    case TaskDeleted => if s.closed || s.removed then s else s.(removed := true, queue := s.queue + [Gone])
    case StateChanged =>
      if s.closed || s.removed || s.refreshQueued then s
      else s.(refreshQueued := true, queue := s.queue + [Refresh])
    case Irrelevant => s
  }

  function OnSignal(s: State): State
    requires s.queue != []
  {
    var rest := s.(queue := s.queue[1..]);
    match s.queue[0]
    case Lost => rest.(phase := Ended)
    case Gone => rest.(emitted := s.emitted + [TaskRemoved])
    case Refresh =>
      var taken := rest.(refreshQueued := false);
      if s.removed || s.closed then taken else taken.(phase := Loading, noticed := false)
  }

  function Step(s: State, e: Event): State
    requires Enabled(s, e)
  {
    match e
    case ServerChanges(history) => s.(server := history, unannounced := true)
    case Notify(notice) =>
      var told := OnNotice(s, notice);
      if notice.StateChanged? then told.(unannounced := false, noticed := true) else told
    case BeginFirstLoad => s.(phase := Loading, noticed := false)
    case TakeSignal => OnSignal(s)
    case ReadHistory => s.(phase := Read(s.server))
    case DeliverHistory =>
      var next := s.phase.history;
      s.(phase := Streaming, previous := Some(next),
         emitted := if s.previous.None? then [Snapshot(next)] else s.emitted + ChangedTurns(s.previous.value, next))
    case LoadFails => s.(phase := Ended)
  }

  ghost predicate Run(states: seq<State>, events: seq<Event>) {
    && |states| == |events| + 1
    && states[0] == Init(states[0].server)
    && forall i :: 0 <= i < |events| ==> Enabled(states[i], events[i]) && states[i + 1] == Step(states[i], events[i])
  }

  function Signals(queue: seq<Signal>, signal: Signal): nat {
    if queue == [] then 0 else (if queue[0] == signal then 1 else 0) + Signals(queue[1..], signal)
  }

  function Removals(events: seq<TaskEvent>): nat {
    if events == [] then 0
    else Removals(events[..|events| - 1]) + if events[|events| - 1].TaskRemoved? then 1 else 0
  }

  lemma {:induction false} SignalsAppend(queue: seq<Signal>, added: Signal, signal: Signal)
    ensures Signals(queue + [added], signal) == Signals(queue, signal) + if added == signal then 1 else 0
  {
    if queue != [] {
      assert (queue + [added])[1..] == queue[1..] + [added];
      SignalsAppend(queue[1..], added, signal);
    }
  }

  ghost predicate QueueInv(s: State) {
    && Signals(s.queue, Refresh) == (if s.refreshQueued then 1 else 0)
    && (s.noticed && !s.removed && !s.closed ==> s.refreshQueued)
  }

  /** A stream that is settled and owes no refresh has delivered the server's current history. */
  ghost predicate CurrentInv(s: State) {
    !s.removed && !s.closed && !s.unannounced && !s.refreshQueued ==>
      && (s.phase.Read? ==> s.phase.history == s.server)
      && (s.phase.Streaming? ==> s.previous == Some(s.server))
  }

  ghost predicate FoldInv(s: State) {
    && (s.phase.Subscribed? ==> s.previous.None?)
    && (s.previous.None? ==> !s.phase.Streaming? && s.emitted == [])
    && (s.previous.Some? ==> Distinct(s.previous.value) && Reproduces(Known(s.emitted), s.previous.value))
    && (s.phase.Read? ==> Distinct(s.phase.history))
    && Distinct(s.server)
  }

  lemma StepKeepsQueue(s: State, e: Event)
    requires QueueInv(s) && Enabled(s, e)
    ensures QueueInv(Step(s, e))
  {
    if e.Notify? {
      SignalsAppend(s.queue, Refresh, Refresh);
      SignalsAppend(s.queue, Gone, Refresh);
      SignalsAppend(s.queue, Lost, Refresh);
    }
  }

  /** A removal waits or was reported, once; a close waits until it ends the stream. */
  ghost predicate EndInv(s: State) {
    && Signals(s.queue, Gone) + Removals(s.emitted) == (if s.removed then 1 else 0)
    && Signals(s.queue, Lost) <= (if s.closed then 1 else 0)
    && (s.closed && !s.phase.Ended? ==> Signals(s.queue, Lost) == 1)
    && (s.previous.None? ==> s.emitted == [])
  }

  lemma {:induction false} NoRemovalsIn(events: seq<TaskEvent>, more: seq<TaskEvent>)
    requires forall i :: 0 <= i < |more| ==> more[i].TurnChanged?
    ensures Removals(events + more) == Removals(events)
  {
    if more == [] {
      assert events + more == events;
    } else {
      NoRemovalsIn(events, more[..|more| - 1]);
      assert (events + more)[..|events| + |more| - 1] == events + more[..|more| - 1];
    }
  }

  lemma NoticeKeepsEnd(s: State, notice: Notice)
    requires EndInv(s)
    ensures EndInv(OnNotice(s, notice))
  {
    forall signal | signal == Gone || signal == Lost
      ensures forall added ::
                Signals(s.queue + [added], signal) == Signals(s.queue, signal) + if added == signal then 1 else 0
    {
      forall added
        ensures Signals(s.queue + [added], signal) == Signals(s.queue, signal) + if added == signal then 1 else 0
      {
        SignalsAppend(s.queue, added, signal);
      }
    }
  }

  lemma TakeKeepsEnd(s: State)
    requires EndInv(s) && FirstDelivered(s) && Enabled(s, TakeSignal)
    ensures EndInv(OnSignal(s))
  {
    assert (s.emitted + [TaskRemoved])[..|s.emitted|] == s.emitted;
  }

  lemma DeliverKeepsEnd(s: State)
    requires EndInv(s) && s.phase.Read?
    ensures EndInv(Step(s, DeliverHistory))
  {
    if s.previous.Some? {
      var batch := ChangedTurns(s.previous.value, s.phase.history);
      forall i | 0 <= i < |batch| ensures batch[i].TurnChanged? {
        ChangesComeFromNext(s.previous.value, s.phase.history, i);
      }
      NoRemovalsIn(s.emitted, batch);
    } else {
      assert [Snapshot(s.phase.history)][..0] == [];
    }
  }

  /** A stream reads its queue only after its first snapshot. */
  predicate FirstDelivered(s: State) {
    (s.phase.Subscribed? ==> s.previous.None?) && (s.phase.Streaming? ==> s.previous.Some?)
  }

  lemma StepKeepsEnd(s: State, e: Event)
    requires EndInv(s) && FirstDelivered(s) && Enabled(s, e)
    ensures EndInv(Step(s, e))
  {
    match e
    case Notify(notice) => NoticeKeepsEnd(s, notice);
    case TakeSignal => TakeKeepsEnd(s);
    case DeliverHistory => DeliverKeepsEnd(s);
    case _ =>
  }

  lemma StepKeepsFirst(s: State, e: Event)
    requires FirstDelivered(s) && Enabled(s, e)
    ensures FirstDelivered(Step(s, e))
  {
  }

  lemma {:induction false} RunKeepsEnd(states: seq<State>, events: seq<Event>, i: nat)
    requires Run(states, events) && i < |states|
    ensures EndInv(states[i]) && FirstDelivered(states[i])
  {
    if i > 0 {
      RunKeepsEnd(states, events, i - 1);
      assert Enabled(states[i - 1], events[i - 1]);
      StepKeepsEnd(states[i - 1], events[i - 1]);
      StepKeepsFirst(states[i - 1], events[i - 1]);
    }
  }

  lemma StepKeepsCurrent(s: State, e: Event)
    requires CurrentInv(s) && Enabled(s, e)
    ensures CurrentInv(Step(s, e))
  {
  }

  lemma StepKeepsFold(s: State, e: Event)
    requires FoldInv(s) && Enabled(s, e) && (e.ServerChanges? ==> Distinct(e.history))
    ensures FoldInv(Step(s, e))
  {
    match e
    case TakeSignal => TakeKeepsFold(s);
    case DeliverHistory => DeliverKeepsFold(s);
    case _ =>
  }

  lemma TakeKeepsFold(s: State)
    requires FoldInv(s) && Enabled(s, TakeSignal)
    ensures FoldInv(OnSignal(s))
  {
    hide Known;
    RemovalIsInvisible(s.emitted);
    var after := OnSignal(s);
    assert Known(after.emitted) == Known(s.emitted);
    assert after.previous == s.previous && after.server == s.server && !after.phase.Read?;
  }

  lemma DeliverKeepsFold(s: State)
    requires FoldInv(s) && s.phase.Read?
    ensures FoldInv(Step(s, DeliverHistory))
  {
    DeliveryReproduces(s.emitted, s.previous, s.phase.history);
  }

  lemma RemovalIsInvisible(events: seq<TaskEvent>)
    ensures Known(events + [TaskRemoved]) == Known(events)
  {
    assert (events + [TaskRemoved])[..|events|] == events;
  }

  lemma DeliveryReproduces(events: seq<TaskEvent>, previous: Option<History>, next: History)
    requires previous.Some? ==> Distinct(previous.value) && Reproduces(Known(events), previous.value)
    requires Distinct(next)
    ensures previous.None? ==> Reproduces(Known([Snapshot(next)]), next)
    ensures previous.Some? ==> Reproduces(Known(events + ChangedTurns(previous.value, next)), next)
  {
    if previous.None? {
      ByIdReproduces(next);
      assert [Snapshot(next)][..0] == [];
    } else {
      DiffReproduces(events, previous.value, next);
    }
  }

  lemma {:induction false} RunKeeps(states: seq<State>, events: seq<Event>, i: nat)
    requires Run(states, events) && i < |states|
    ensures QueueInv(states[i]) && CurrentInv(states[i])
    ensures Distinct(states[0].server) && (forall e :: e in events && e.ServerChanges? ==> Distinct(e.history)) ==>
              FoldInv(states[i])
  {
    if i > 0 {
      RunKeeps(states, events, i - 1);
      var e := events[i - 1];
      assert e in events && Enabled(states[i - 1], e);
      StepKeepsQueue(states[i - 1], e);
      StepKeepsCurrent(states[i - 1], e);
      if FoldInv(states[i - 1]) && (e.ServerChanges? ==> Distinct(e.history)) { StepKeepsFold(states[i - 1], e); }
    }
  }

  // ---------- main results ----------

  /** In every run at most one refresh waits, and no notice after the latest load began is lost. */
  lemma NoRefreshIsLost(states: seq<State>, events: seq<Event>, i: nat)
    requires Run(states, events) && i < |states|
    ensures var s := states[i];
            && Signals(s.queue, Refresh) <= 1
            && (s.noticed && !s.removed && !s.closed ==> Signals(s.queue, Refresh) == 1)
  {
    RunKeeps(states, events, i);
  }

  /** In every run a removal is reported at most once and otherwise still waits, and so does a close until the
      stream ends. */
  lemma EndsAreNotLost(states: seq<State>, events: seq<Event>, i: nat)
    requires Run(states, events) && i < |states|
    ensures var s := states[i];
            && Removals(s.emitted) <= 1
            && (Removals(s.emitted) == 1 ==> s.removed)
            && (s.removed ==> Removals(s.emitted) == 1 || Signals(s.queue, Gone) == 1)
            && (s.closed ==> s.phase.Ended? || Signals(s.queue, Lost) == 1)
  {
    RunKeepsEnd(states, events, i);
  }

  /** In every run the stream ends exactly when it takes the close from its queue or a load of the history fails: a
      removed task alone does not end it. */
  lemma StreamEndsExactlyBy(states: seq<State>, events: seq<Event>, i: nat)
    requires Run(states, events) && i < |events| && !states[i].phase.Ended?
    ensures states[i + 1].phase.Ended?
            <==> || events[i] == LoadFails
                 || (events[i] == TakeSignal && states[i].queue != [] && states[i].queue[0] == Lost)
  {
    assert Enabled(states[i], events[i]) && states[i + 1] == Step(states[i], events[i]);
  }

  /** In every run a removal taken from the queue is reported, a refresh is followed by a load exactly while task and
      connection last, and every loaded history is delivered as it was read. */
  lemma SignalsAreServed(states: seq<State>, events: seq<Event>, i: nat)
    requires Run(states, events) && i < |events|
    ensures var s, after := states[i], states[i + 1];
            && (events[i] == TakeSignal && s.queue[0] == Gone ==> after.emitted == s.emitted + [TaskRemoved])
            && (events[i] == TakeSignal && s.queue[0] == Refresh ==>
                  after.emitted == s.emitted && (after.phase.Loading? <==> !s.removed && !s.closed))
            && (events[i] == ReadHistory ==> after.phase == Read(s.server))
            && (events[i] == DeliverHistory ==> after.phase.Streaming? && after.previous == Some(s.phase.history))
  {
    assert Enabled(states[i], events[i]) && states[i + 1] == Step(states[i], events[i]);
  }

  /** If the server announces its changes, a stream at rest with an empty queue has delivered the current history. */
  lemma AtRestIsCurrent(states: seq<State>, events: seq<Event>, i: nat)
    requires Run(states, events) && i < |states|
    requires var s := states[i];
             s.phase.Streaming? && s.queue == [] && !s.removed && !s.closed && !s.unannounced
    ensures states[i].previous == Some(states[i].server)
  {
    RunKeeps(states, events, i);
  }

  /** In every run, whatever the histories list, what was emitted replays the latest delivered history if no delivered
      diff hid a change; and the first diff that hides one is where the replay goes wrong. */
  lemma {:induction false} EmittedReplaysUntilHidden(states: seq<State>, events: seq<Event>, i: nat)
    requires Run(states, events) && i < |states| && states[i].previous.Some?
    requires forall k :: 0 <= k < i - 1 ==> !Hides(states[k], events[k])
    ensures Replays(Known(states[i].emitted), states[i].previous.value)
            <==> !(i > 0 && Hides(states[i - 1], events[i - 1]))
  {
    hide Step, Hides, Replays, Known;
    assert i > 0;
    assert Enabled(states[i - 1], events[i - 1]);
    if states[i - 1].previous.Some? { EmittedReplaysUntilHidden(states, events, i - 1); }
    StepReplays(states[i - 1], events[i - 1]);
  }

  lemma StepReplays(s: State, e: Event)
    requires Enabled(s, e) && Step(s, e).previous.Some?
    requires s.previous.Some? ==> Replays(Known(s.emitted), s.previous.value)
    ensures Replays(Known(Step(s, e).emitted), Step(s, e).previous.value) <==> !Hides(s, e)
  {
    hide Known, Replays;
    if e.DeliverHistory? {
      if s.previous.Some? { DiffReplaysExactly(s.emitted, s.previous.value, s.phase.history); }
      else { FirstReplays(s.phase.history); }
    } else {
      RemovalIsInvisible(s.emitted);
    }
  }

  lemma FirstReplays(history: History)
    ensures Replays(Known([Snapshot(history)]), history)
  {
    assert [Snapshot(history)][..0] == [];
  }

  /** A diff is delivered that hides a change. */
  ghost predicate Hides(s: State, e: Event) {
    e.DeliverHistory? && s.phase.Read? && s.previous.Some? && !NothingHidden(s.previous.value, s.phase.history)
  }

  /** The delivered diff hides how its history ends with this turn. */
  predicate HidesTurn(s: State, e: Event, id: TurnId) {
    e.DeliverHistory? && s.phase.Read? && s.previous.Some? && HiddenChange(s.previous.value, s.phase.history, id)
  }

  /** The delivered diff is of a history that lists this turn anew. */
  predicate RelistsTurn(s: State, e: Event, id: TurnId) {
    e.DeliverHistory? && s.phase.Read? && s.previous.Some? && Relists(s.previous.value, s.phase.history, id)
  }

  /** Of the diffs delivered so far, the last one to list this turn anew hid how its history ends with it. */
  ghost predicate Stale(states: seq<State>, events: seq<Event>, i: nat, id: TurnId)
    requires i < |states| == |events| + 1
  {
    exists k :: 0 <= k < i && HidesTurn(states[k], events[k], id)
                && forall j :: k < j < i ==> !RelistsTurn(states[j], events[j], id)
  }

  lemma StaleStep(states: seq<State>, events: seq<Event>, i: nat, id: TurnId)
    requires 0 < i < |states| == |events| + 1
    ensures Stale(states, events, i, id)
            <==> HidesTurn(states[i - 1], events[i - 1], id)
                 || (Stale(states, events, i - 1, id) && !RelistsTurn(states[i - 1], events[i - 1], id))
  {
    hide HidesTurn, RelistsTurn;
    if Stale(states, events, i - 1, id) && !RelistsTurn(states[i - 1], events[i - 1], id) {
      var k :| 0 <= k < i - 1 && HidesTurn(states[k], events[k], id)
               && forall j :: k < j < i - 1 ==> !RelistsTurn(states[j], events[j], id);
      assert forall j :: k < j < i ==> !RelistsTurn(states[j], events[j], id);
    }
    if Stale(states, events, i, id) && !HidesTurn(states[i - 1], events[i - 1], id) {
      var k :| 0 <= k < i && HidesTurn(states[k], events[k], id)
               && forall j :: k < j < i ==> !RelistsTurn(states[j], events[j], id);
      assert k < i - 1;
    }
  }

  /** Before the first delivery nothing is stale. */
  lemma {:induction false} NothingStaleYet(states: seq<State>, events: seq<Event>, i: nat, id: TurnId)
    requires Run(states, events) && i < |states| && states[i].previous.None?
    ensures !Stale(states, events, i, id)
  {
    hide Stale;
    if i > 0 {
      assert Enabled(states[i - 1], events[i - 1]) && states[i] == Step(states[i - 1], events[i - 1]);
      NothingStaleYet(states, events, i - 1, id);
      StaleStep(states, events, i, id);
    } else {
      NeverStale(states, events, id);
    }
  }

  lemma NeverStale(states: seq<State>, events: seq<Event>, id: TurnId)
    requires 0 < |states| == |events| + 1
    ensures !Stale(states, events, 0, id)
  {
  }

  lemma StepTells(s: State, e: Event, id: TurnId)
    requires Enabled(s, e) && Step(s, e).previous.Some? && id in ById(Step(s, e).previous.value)
    ensures s.previous.None? ==> Tells(Known(Step(s, e).emitted), Step(s, e).previous.value, id)
    ensures s.previous.Some? ==>
              (Tells(Known(Step(s, e).emitted), Step(s, e).previous.value, id)
               <==> !HidesTurn(s, e, id)
                    && (RelistsTurn(s, e, id) || Tells(Known(s.emitted), s.previous.value, id)))
  {
    hide Known, ById, ChangedTurns, HiddenChange, Relists, Tells;
    if e.DeliverHistory? {
      if s.previous.Some? { DiffTells(s.emitted, s.previous.value, s.phase.history, id); }
      else { FirstTells(s.phase.history, id); }
    } else {
      RemovalIsInvisible(s.emitted);
    }
  }

  lemma FirstTells(history: History, id: TurnId)
    requires id in ById(history)
    ensures Tells(Known([Snapshot(history)]), history, id)
  {
    assert [Snapshot(history)][..0] == [];
  }

  /** In every run, whatever the histories list: what was emitted gives a turn as the latest delivered history ends with
      it if and only if the last diff to list the turn anew did not hide that. */
  lemma {:induction false} TurnIsToldExactly(states: seq<State>, events: seq<Event>, i: nat, id: TurnId)
    requires Run(states, events) && i < |states| && states[i].previous.Some?
    requires id in ById(states[i].previous.value)
    ensures Tells(Known(states[i].emitted), states[i].previous.value, id) <==> !Stale(states, events, i, id)
  {
    hide Step, Known, ById, Tells, Stale, HiddenChange, Relists;
    assert i > 0;
    var s, e := states[i - 1], events[i - 1];
    assert Enabled(s, e) && states[i] == Step(s, e);
    StepTells(s, e, id);
    StaleStep(states, events, i, id);
    if s.previous.None? {
      NothingStaleYet(states, events, i - 1, id);
    } else if !RelistsTurn(s, e, id) {
      NotRelistedIsKept(s, e, id);
      TurnIsToldExactly(states, events, i - 1, id);
    }
  }

  /** A turn that is not listed anew was there before. */
  lemma NotRelistedIsKept(s: State, e: Event, id: TurnId)
    requires Enabled(s, e) && s.previous.Some? && Step(s, e).previous.Some?
    requires id in ById(Step(s, e).previous.value) && !RelistsTurn(s, e, id)
    ensures id in ById(s.previous.value)
  {
    hide ById, Relists, ChangedTurns;
    if e.DeliverHistory? { NotRelistedWasListed(s.previous.value, s.phase.history, id); }
  }

  lemma NotRelistedWasListed(previous: History, next: History, id: TurnId)
    requires id in ById(next) && !Relists(previous, next, id)
    ensures id in ById(previous)
  {
    ListedIsById(next, id);
  }

  /** Replaying what was emitted gives every turn as the latest delivered history ends with it, exactly if none is
      stale; with distinct turns in every history it gives every listing. */
  lemma EmittedReproducesLatest(states: seq<State>, events: seq<Event>, i: nat)
    requires Run(states, events) && i < |states| && states[i].previous.Some?
    ensures Replays(Known(states[i].emitted), states[i].previous.value)
            <==> forall id :: id in ById(states[i].previous.value) ==> !Stale(states, events, i, id)
    ensures Distinct(states[0].server) && (forall e :: e in events && e.ServerChanges? ==> Distinct(e.history)) ==>
              Reproduces(Known(states[i].emitted), states[i].previous.value)
  {
    hide Known, ById, Stale, Reproduces, Distinct;
    RunKeeps(states, events, i);
    forall id | id in ById(states[i].previous.value)
      ensures Tells(Known(states[i].emitted), states[i].previous.value, id) <==> !Stale(states, events, i, id)
    {
      TurnIsToldExactly(states, events, i, id);
    }
  }

  // ---------- the stream as its callbacks update it ----------

  class TaskEventStream {
    var queue: seq<Signal>
    var refreshQueued: bool
    var removed: bool
    var closed: bool
    var phase: Phase
    var previous: Option<History>
    var emitted: seq<TaskEvent>
    ghost var server: History
    ghost var unannounced: bool
    ghost var noticed: bool

    ghost function View(): State
      reads this
    {
      State(queue, refreshQueued, removed, closed, phase, previous, emitted, server, unannounced, noticed)
    }

    /** What every reachable stream keeps. */
    ghost predicate Valid()
      reads this
    {
      QueueInv(View()) && EndInv(View()) && FirstDelivered(View())
    }

    constructor (ghost server: History)
      ensures Valid() && View() == Init(server)
    {
      queue, refreshQueued, removed, closed := [], false, false, false;
      phase, previous, emitted := Subscribed, None, [];
      this.server, unannounced, noticed := server, false, false;
    }

    /** However many notices arrive, one refresh waits; and once a removal or a close arrived, none is added. */
    method Receive(notice: Notice)
      requires Valid()
      modifies this
      ensures Valid() && View() == Step(old(View()), Notify(notice))
      ensures notice.StateChanged? && !removed && !closed ==> Signals(queue, Refresh) == 1
      ensures old(removed) || old(closed) ==> Signals(queue, Refresh) == old(Signals(queue, Refresh))
    {
      hide QueueInv, EndInv, FirstDelivered;
      StreamStepKeeps(View(), Notify(notice));
      RefreshesAfterNotice(View(), notice);
      if notice.StateChanged? { unannounced, noticed := false, true; }
      if notice.ConnectionClosed? {
        if !closed {
          closed := true;
          queue := queue + [Lost];
        }
        return;
      }
      if notice.Irrelevant? || closed { return; }
      if notice.TaskDeleted? {
        if !removed {
          removed := true;
          queue := queue + [Gone];
        }
        return;
      }
      if !removed && !refreshQueued {
        refreshQueued := true;
        queue := queue + [Refresh];
      }
    }

    /** A taken refresh begins a load unless the task is gone or the connection closed; a removal is reported. */
    method Take()
      requires Valid() && Enabled(View(), TakeSignal)
      modifies this
      ensures Valid() && View() == Step(old(View()), TakeSignal)
      ensures phase.Loading? ==> Signals(queue, Refresh) == 0 && !removed && !closed && !noticed
      ensures Removals(emitted) > Removals(old(emitted)) ==> removed && Signals(queue, Gone) == 0
    {
      hide QueueInv, EndInv, FirstDelivered, Signals, Removals;
      StreamStepKeeps(View(), TakeSignal);
      TakenSignalMeans(View());
      var signal := queue[0];
      queue := queue[1..];
      match signal
      case Lost => phase := Ended;
      case Gone => emitted := emitted + [TaskRemoved];
      case Refresh =>
        refreshQueued := false;
        if !removed && !closed { phase, noticed := Loading, false; }
    }

    /** What is emitted brings a consumer who was up to date up to date again, exactly if the diff hides nothing. */
    method Deliver()
      requires Valid() && Enabled(View(), DeliverHistory)
      modifies this
      ensures Valid() && View() == Step(old(View()), DeliverHistory) && previous.Some?
      ensures (old(previous).Some? ==> Replays(Known(old(emitted)), old(previous).value)) ==>
                (Replays(Known(emitted), previous.value) <==> !Hides(old(View()), DeliverHistory))
    {
      hide QueueInv, EndInv, FirstDelivered, Replays, Known, Hides;
      StreamStepKeeps(View(), DeliverHistory);
      if previous.Some? ==> Replays(Known(emitted), previous.value) { StepReplays(View(), DeliverHistory); }
      var next := phase.history;
      if previous.None? {
        emitted := [Snapshot(next)];
      } else {
        emitted := emitted + ChangedTurns(previous.value, next);
      }
      previous := Some(next);
      phase := Streaming;
    }
  }

  lemma StreamStepKeeps(s: State, e: Event)
    requires QueueInv(s) && EndInv(s) && FirstDelivered(s) && Enabled(s, e)
    ensures QueueInv(Step(s, e)) && EndInv(Step(s, e)) && FirstDelivered(Step(s, e))
  {
    hide QueueInv, EndInv, FirstDelivered;
    StepKeepsQueue(s, e);
    StepKeepsEnd(s, e);
    StepKeepsFirst(s, e);
  }

  lemma RefreshesAfterNotice(s: State, notice: Notice)
    requires QueueInv(s)
    ensures var after := OnNotice(s, notice);
            && (notice.StateChanged? && !after.removed && !after.closed ==> Signals(after.queue, Refresh) == 1)
            && (s.removed || s.closed ==> Signals(after.queue, Refresh) == Signals(s.queue, Refresh))
  {
    SignalsAppend(s.queue, Refresh, Refresh);
    SignalsAppend(s.queue, Gone, Refresh);
    SignalsAppend(s.queue, Lost, Refresh);
  }

  /** A load begins with no refresh left waiting, and a removal that is reported waits no more. */
  lemma TakenSignalMeans(s: State)
    requires QueueInv(s) && EndInv(s) && FirstDelivered(s) && Enabled(s, TakeSignal)
    ensures var after := OnSignal(s);
            && (after.phase.Loading? ==>
                  Signals(after.queue, Refresh) == 0 && !after.removed && !after.closed && !after.noticed)
            && (Removals(after.emitted) > Removals(s.emitted) ==> after.removed && Signals(after.queue, Gone) == 0)
  {
    StepKeepsQueue(s, TakeSignal);
    TakeKeepsEnd(s);
  }
}
