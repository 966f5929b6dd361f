/** Runs of the attachment in which a confirmation rests on a change that is not newer than its baseline. */
module AttachmentScenes {
  import opened Types
  import opened Replica
  import opened Injection
  import opened Attachment
  import Agreement = ReplicaAgreement
  import Documents = DocumentAgreement
  import Proof = AttachmentProof
  import Serialize

  /** One command runs on one task: where it stands, and what happened to the task so far. */
  ghost predicate Scene(m: Machine, id: CommandId, thread: ThreadId, command: Command, h: History, pc: Pc) {
    && !m.closed && m.generation == 1
    && thread in m.histories && m.histories[thread] == h
    && id in m.requests && m.requests[id] == Inject(command)
    && id in m.pcs && m.pcs[id] == pc
    && Serialize.IsRunning(m.chain, id) && ThreadOf(m, id) == thread
  }

  lemma RunExtends(states: seq<Machine>, events: seq<Event>, e: Event)
    requires Run(states, events) && Enabled(states[|events|], e)
    ensures Run(states + [Step(states[|events|], e)], events + [e])
  {
    var longer, more := states + [Step(states[|events|], e)], events + [e];
    forall i | 0 <= i < |more| ensures Enabled(longer[i], more[i]) && longer[i + 1] == Step(longer[i], more[i]) {
      if i < |events| { assert longer[i] == states[i] && more[i] == events[i] && longer[i + 1] == states[i + 1]; }
    }
  }

  lemma SceneOpens(id: CommandId, thread: ThreadId, command: Command)
    ensures var issued := Step(INITIAL, Issue(id, thread, Inject(command)));
            && Enabled(issued, Begin(id, true))
            && Scene(Step(issued, Begin(id, true)), id, thread, command,
                     [Agreement.Mark(NoInjection), Agreement.Follow(1)], Synchronizing)
  {
    var h: History := [Agreement.Mark(NoInjection)];
    Agreement.ExecAppend([], Agreement.Mark(NoInjection));
    assert [] + [Agreement.Mark(NoInjection)] == h;
    assert h + [Agreement.Follow(1)] == [Agreement.Mark(NoInjection), Agreement.Follow(1)];
    assert Agreement.Exec(h) == Agreement.INITIAL;
  }

  lemma SceneChanges(m: Machine, id: CommandId, thread: ThreadId, command: Command, h: History, pc: Pc, change: Change)
    requires Scene(m, id, thread, command, h, pc)
    ensures Scene(Step(m, Changed(thread, change)), id, thread, command, h + [Agreement.Deliver(change, 1)], pc)
  {
  }

  lemma SceneSynchronizes(m: Machine, id: CommandId, thread: ThreadId, command: Command, h: History)
    requires Scene(m, id, thread, command, h, Synchronizing) && Agreement.Exec(h).Ready()
    ensures Enabled(m, SyncReturned(id)) && Scene(Step(m, SyncReturned(id)), id, thread, command, h, InSync)
  {
  }

  lemma SceneInjects(m: Machine, id: CommandId, thread: ThreadId, command: Command, h: History)
    requires Scene(m, id, thread, command, h, InSync) && Proof.FitsActivity(command, Agreement.Exec(h).observed)
    ensures Enabled(m, Validate(id))
    ensures Scene(Step(m, Validate(id)), id, thread, command, h + [Agreement.Mark(Injecting)],
                  Injected(|h|, CaptureProof(command, Agreement.Exec(h))))
  {
    Proof.ValidMeansFits(command, Agreement.Exec(h).observed);
  }

  lemma SceneAnswers(m: Machine, id: CommandId, thread: ThreadId, command: Command, h: History, pc: Pc, turn: TurnId)
    requires Scene(m, id, thread, command, h, pc) && pc.Injected?
    requires command.SteerTurn? ==> turn == command.expected
    ensures Enabled(m, Answer(id, Accepted(Some(turn))))
    ensures Scene(Step(m, Answer(id, Accepted(Some(turn)))), id, thread, command, h,
                  Proving(pc.since, pc.baseline, Some(turn)))
  {
  }

  lemma SceneConfirms(m: Machine, id: CommandId, thread: ThreadId, command: Command, h: History, pc: Pc, turn: TurnId)
    requires Scene(m, id, thread, command, h, pc) && pc.Proving? && pc.turn == Some(turn)
    requires ProvesInjection(command, Agreement.Exec(h), turn, pc.baseline)
    ensures Enabled(m, Wake(id, false))
    ensures var after := Step(m, Wake(id, false));
            && id in after.pcs && after.pcs[id] == Done(Confirmed(turn), pc.since, Some(pc.baseline), |h|)
            && thread in after.histories && after.histories[thread] == h + [Agreement.Mark(InjectionConfirmed)]
            && id in after.requests && after.requests[id] == Inject(command)
  {
  }

  function Delivers(changes: seq<Change>): History {
    seq(|changes|, i requires 0 <= i < |changes| => Agreement.Deliver(changes[i], 1))
  }

  /** The task's history up to the baseline of its command, and with what came after it. */
  function Opening(first: seq<Change>): History {
    [Agreement.Mark(NoInjection), Agreement.Follow(1)] + Delivers(first)
  }

  function Whole(first: seq<Change>, later: seq<Change>): History {
    Opening(first) + [Agreement.Mark(Injecting)] + Delivers(later)
  }

  lemma RunBegins()
    ensures Run([INITIAL], [])
  {
  }

  lemma Take(states: seq<Machine>, events: seq<Event>, e: Event) returns (longer: seq<Machine>, more: seq<Event>)
    requires Run(states, events) && Enabled(states[|events|], e)
    ensures Run(longer, more) && |more| == |events| + 1 == |longer| - 1 && longer[|more|] == Step(states[|events|], e)
  {
    RunExtends(states, events, e);
    longer, more := states + [Step(states[|events|], e)], events + [e];
  }

  /** The changes arrive one after the other. */
  lemma ChangesArrive(
    states: seq<Machine>, events: seq<Event>,
    id: CommandId, thread: ThreadId, command: Command, h: History, pc: Pc, changes: seq<Change>)
    returns (longer: seq<Machine>, more: seq<Event>)
    requires Run(states, events) && |states| == |events| + 1
    requires Scene(states[|events|], id, thread, command, h, pc)
    ensures Run(longer, more) && |longer| == |more| + 1
    ensures Scene(longer[|more|], id, thread, command, h + Delivers(changes), pc)
    decreases |changes|
  {
    hide Run, Scene, Step;
    if changes == [] {
      assert h + Delivers(changes) == h;
      longer, more := states, events;
    } else {
      var front, last := changes[..|changes| - 1], changes[|changes| - 1];
      longer, more := ChangesArrive(states, events, id, thread, command, h, pc, front);
      SceneChanges(longer[|more|], id, thread, command, h + Delivers(front), pc, last);
      longer, more := Take(longer, more, Changed(thread, last));
      assert h + Delivers(changes) == h + Delivers(front) + [Agreement.Deliver(last, 1)];
    }
  }

  /** A command whose task is synchronized by these changes, and fits it, gets to its proof. */
  lemma RunToProving(id: CommandId, thread: ThreadId, command: Command, first: seq<Change>, turn: TurnId)
    returns (states: seq<Machine>, events: seq<Event>)
    requires Agreement.Exec(Opening(first)).Ready()
    requires Proof.FitsActivity(command, Agreement.Exec(Opening(first)).observed)
    requires command.SteerTurn? ==> turn == command.expected
    ensures Run(states, events) && |states| == |events| + 1
    ensures var baseline := CaptureProof(command, Agreement.Exec(Opening(first)));
            Scene(states[|events|], id, thread, command, Opening(first) + [Agreement.Mark(Injecting)],
                  Proving(|Opening(first)|, baseline, Some(turn)))
  {
    hide Step, Scene, Run, Agreement.Exec, Proof.FitsActivity;
    var h := Opening(first);
    states, events := [INITIAL], [];
    RunBegins();
    states, events := Take(states, events, Issue(id, thread, Inject(command)));
    SceneOpens(id, thread, command);
    states, events := Take(states, events, Begin(id, true));
    states, events := ChangesArrive(
      states, events, id, thread, command, [Agreement.Mark(NoInjection), Agreement.Follow(1)], Synchronizing, first);
    SceneSynchronizes(states[|events|], id, thread, command, h);
    states, events := Take(states, events, SyncReturned(id));
    SceneInjects(states[|events|], id, thread, command, h);
    states, events := Take(states, events, Validate(id));
    var injected := Injected(|h|, CaptureProof(command, Agreement.Exec(h)));
    SceneAnswers(states[|events|], id, thread, command, h + [Agreement.Mark(Injecting)], injected, turn);
    states, events := Take(states, events, Answer(id, Accepted(Some(turn))));
  }

  /** And is confirmed by whatever proves it. */
  lemma RunToConfirmed(
    id: CommandId, thread: ThreadId, command: Command, first: seq<Change>, later: seq<Change>, turn: TurnId)
    returns (states: seq<Machine>, events: seq<Event>)
    requires Agreement.Exec(Opening(first)).Ready()
    requires Proof.FitsActivity(command, Agreement.Exec(Opening(first)).observed)
    requires command.SteerTurn? ==> turn == command.expected
    requires ProvesInjection(command, Agreement.Exec(Whole(first, later)), turn,
                             CaptureProof(command, Agreement.Exec(Opening(first))))
    ensures Run(states, events) && |states| == |events| + 1
    ensures var m := states[|events|];
            && id in m.pcs && m.pcs[id].Done? && m.pcs[id].outcome == Confirmed(turn)
            && m.pcs[id].since == |Opening(first)| && m.pcs[id].upto == |Whole(first, later)|
            && thread in m.histories
            && m.histories[thread] == Whole(first, later) + [Agreement.Mark(InjectionConfirmed)]
            && id in m.requests && m.requests[id] == Inject(command)
  {
    hide Step, Scene, Run, Agreement.Exec, Proof.FitsActivity, ProvesInjection;
    var h, baseline := Opening(first), CaptureProof(command, Agreement.Exec(Opening(first)));
    var pc := Proving(|h|, baseline, Some(turn));
    states, events := RunToProving(id, thread, command, first, turn);
    states, events := ChangesArrive(
      states, events, id, thread, command, h + [Agreement.Mark(Injecting)], pc, later);
    SceneConfirms(states[|events|], id, thread, command, Whole(first, later), pc, turn);
    states, events := Take(states, events, Wake(id, false));
  }

  lemma Grows(h: History, n: nat)
    requires n < |h|
    ensures Agreement.Exec(h[..n + 1]) == Agreement.Step(Agreement.Exec(h[..n]), h[n])
  {
    assert h[..n + 1] == h[..n] + [h[n]];
    Agreement.ExecAppend(h[..n], h[n]);
  }

  lemma EmptySnapshot(revision: Option<int>)
    ensures SnapshotContent(Snapshot(revision, [], [], [])) == EMPTY
  {
  }

  lemma EmptyPatches(o: Observed, base: Option<int>, revision: Option<int>)
    ensures PatchedContent(o, Patches(base, revision, [], [], [])) == o
  {
    assert Seen(o, []) == o;
  }

  /** A patch without a revision, which costs the replica its synchronization. */
  const UNREADABLE := Patches(None, None, [], [], [])

  // ---------- a start ----------

  /** Its own revision again, with a new turn in it, and one revision more. */
  function StartLater(key: Key, turn: TurnId): seq<Change> {
    [UNREADABLE, Snapshot(Some(5), [Entity(key, Turn(turn, InProgress, None))], [], []),
     Patches(Some(5), Some(6), [], [], [])]
  }

  const START_FIRST := [Snapshot(Some(5), [], [], [])]

  lemma StartStates(key: Key, turn: TurnId)
    ensures var h, novel := Whole(START_FIRST, StartLater(key, turn)), Turn(turn, InProgress, None);
            && |h| == 7 && |Opening(START_FIRST)| == 3 && h[..3] == Opening(START_FIRST)
            && h[5] == Agreement.Deliver(Snapshot(Some(5), [Entity(key, novel)], [], []), 1)
            && Agreement.Exec(h[..3]) == State(Connected, Synchronized, NoInjection, 1, Some(5), EMPTY)
            && Agreement.Exec(h[..5]) == State(Connected, Following, Injecting, 1, Some(5), EMPTY)
            && Agreement.Exec(h[..6])
               == State(Connected, Synchronized, Injecting, 1, Some(5), BindTurn(EMPTY, key, novel))
            && Agreement.Exec(h) == State(Connected, Synchronized, Injecting, 1, Some(6), BindTurn(EMPTY, key, novel))
  {
    var h := Whole(START_FIRST, StartLater(key, turn));
    Proof.OneTurnSnapshot(key, Turn(turn, InProgress, None), Some(5));
    EmptySnapshot(Some(5));
    EmptyPatches(BindTurn(EMPTY, key, Turn(turn, InProgress, None)), Some(5), Some(6));
    hide SnapshotContent, PatchedContent, BindTurn;
    Grows(h, 0);
    Grows(h, 1);
    Grows(h, 2);
    Grows(h, 3);
    Grows(h, 4);
    Grows(h, 5);
    Grows(h, 6);
    assert h[..0] == [] && h[..7] == h && h[..3] == Opening(START_FIRST);
  }

  /** A start is confirmed by a turn that a second snapshot of the baseline's own revision brought. */
  lemma SameRevisionCanConfirm(id: CommandId, thread: ThreadId, key: Key, turn: TurnId, delivery: DeliveryId)
    returns (states: seq<Machine>, events: seq<Event>)
    ensures Run(states, events) && |states| == |events| + 1
    ensures var m := states[|events|];
            && id in m.pcs && m.pcs[id].Done? && m.pcs[id].outcome == Confirmed(turn)
            && thread in m.histories && m.pcs[id].since < 5 < m.pcs[id].upto == 7 < |m.histories[thread]|
            && Proof.Introduces(m.histories[thread][..m.pcs[id].upto], 5, Proof.TurnExists(turn), 1, 5)
            && Agreement.Exec(m.histories[thread][..m.pcs[id].since]).revision == Some(5)
  {
    hide Run, Agreement.Exec, BindTurn, Whole, Opening;
    var command, later := StartTurn(delivery), StartLater(key, turn);
    var h := Whole(START_FIRST, later);
    StartStates(key, turn);
    Proof.OneTurnSnapshot(key, Turn(turn, InProgress, None), Some(5));
    states, events := RunToConfirmed(id, thread, command, START_FIRST, later, turn);
    var whole := states[|events|].histories[thread];
    assert whole[..7] == h && whole[..3] == h[..3];
  }

  // ---------- a steer ----------

  /** An entity with a text and a running turn, and then another turn in it. */
  function SteerFirst(key: Key, a: TurnId, b: TurnId, d: DeliveryId): seq<Change> {
    [Documents.OneTurnSnapshot(5, key, a, d), Patches(Some(5), Some(6), [Bind(key, b)], [], [])]
  }

  /** The baseline's own revision once more, whole, and one revision more. */
  function SteerLater(key: Key, b: TurnId, d: DeliveryId): seq<Change> {
    [UNREADABLE, Documents.OneTurnSnapshot(6, key, b, d), Patches(Some(6), Some(7), [], [], [])]
  }

  function Renamed(key: Key, b: TurnId, d: DeliveryId): Observed {
    Observed(map[key := b], map[b := Turn(b, InProgress, None)], {d}, map[])
  }

  lemma SteerStates(key: Key, a: TurnId, b: TurnId, d: DeliveryId)
    requires a != b
    ensures var first, later := SteerFirst(key, a, b, d), SteerLater(key, b, d);
            var h, o := Whole(first, later), Renamed(key, b, d);
            && |h| == 8 && |Opening(first)| == 4 && h[..4] == Opening(first)
            && h[6] == Agreement.Deliver(Documents.OneTurnSnapshot(6, key, b, d), 1)
            && Agreement.Exec(h[..4]) == State(Connected, Synchronized, NoInjection, 1, Some(6), o)
            && Agreement.Exec(h[..6]) == State(Connected, Following, Injecting, 1, Some(6), o)
            && Agreement.Exec(h[..7])
               == State(Connected, Synchronized, Injecting, 1, Some(6), o.(bound := map[d := b]))
            && Agreement.Exec(h) == State(Connected, Synchronized, Injecting, 1, Some(7), o.(bound := map[d := b]))
  {
    var h := Whole(SteerFirst(key, a, b, d), SteerLater(key, b, d));
    SteerOpens(key, a, b, d);
    Documents.OneTurnContent(6, key, b, d);
    EmptyPatches(Renamed(key, b, d).(bound := map[d := b]), Some(6), Some(7));
    assert h[4] == Agreement.Mark(Injecting) && h[5] == Agreement.Deliver(UNREADABLE, 1);
    assert h[7] == Agreement.Deliver(Patches(Some(6), Some(7), [], [], []), 1) && h[..8] == h;
    hide SnapshotContent, PatchedContent, Agreement.Exec, Whole, Opening;
    Grows(h, 4);
    Grows(h, 5);
    Grows(h, 6);
    Grows(h, 7);
  }

  lemma SteerOpens(key: Key, a: TurnId, b: TurnId, d: DeliveryId)
    requires a != b
    ensures var h, opening := Whole(SteerFirst(key, a, b, d), SteerLater(key, b, d)), Opening(SteerFirst(key, a, b, d));
            && |opening| == 4 && h[..4] == opening
            && Agreement.Exec(opening) == State(Connected, Synchronized, NoInjection, 1, Some(6), Renamed(key, b, d))
  {
    hide SnapshotContent, PatchedContent, ApplyDelta, Agreement.Exec, Whole, Opening;
    var first, h := Documents.OneTurnSnapshot(5, key, a, d), Opening(SteerFirst(key, a, b, d));
    OpeningIs(key, a, b, d);
    Documents.OneTurnContent(5, key, a, d);
    Documents.OneDeltaContent(SnapshotContent(first), 5, 6, Bind(key, b));
    Documents.RenamedContent(key, a, b, d);
    Agreement.NothingHappened();
    assert h[..0] == [] && h[..4] == h;
    Grows(h, 0);
    Grows(h, 1);
    Grows(h, 2);
    Grows(h, 3);
  }

  lemma OpeningIs(key: Key, a: TurnId, b: TurnId, d: DeliveryId)
    ensures var first, whole := SteerFirst(key, a, b, d), Whole(SteerFirst(key, a, b, d), SteerLater(key, b, d));
            && Opening(first) == [Agreement.Mark(NoInjection), Agreement.Follow(1),
                                  Agreement.Deliver(Documents.OneTurnSnapshot(5, key, a, d), 1),
                                  Agreement.Deliver(Patches(Some(5), Some(6), [Bind(key, b)], [], []), 1)]
            && |whole| == 8 && whole[..4] == Opening(first)
  {
  }

  lemma SteerIsHonest(key: Key, a: TurnId, b: TurnId, d: DeliveryId, server: Documents.Server)
    requires a != b && server(1, 5) == Documents.OneTurn(key, a, d)
    requires server(1, 6) == server(1, 7) == Documents.OneTurn(key, b, d)
    ensures Proof.FromDocuments(Whole(SteerFirst(key, a, b, d), SteerLater(key, b, d)), server)
  {
    hide Documents.Honest, Documents.Complete, Agreement.Patch, Documents.OneTurn, Documents.OneTurnSnapshot;
    Documents.OneTurnIsHonest(5, key, a, d, server);
    Documents.OneTurnIsHonest(6, key, b, d, server);
    RenameIsHonest(key, a, b, d, server);
    Documents.NoDeltaIsHonest(6, 7, server);
    Documents.UnreadableIsHonest(server);
    var h := Whole(SteerFirst(key, a, b, d), SteerLater(key, b, d));
    forall e | e in h && e.Deliver?
      ensures Documents.Honest(e.change, e.generation, server) && Documents.Complete(e.change, e.generation, server)
    {
      assert e.change in SteerFirst(key, a, b, d) || e.change in SteerLater(key, b, d);
    }
  }

  lemma RenameIsHonest(key: Key, a: TurnId, b: TurnId, d: DeliveryId, server: Documents.Server)
    requires server(1, 5) == Documents.OneTurn(key, a, d) && server(1, 6) == Documents.OneTurn(key, b, d)
    ensures var rename := Patches(Some(5), Some(6), [Bind(key, b)], [], []);
            Documents.Honest(rename, 1, server) && Documents.Complete(rename, 1, server)
  {
    assert server(1, 6).doc == Agreement.Patch(server(1, 5).doc, Bind(key, b));
    Documents.OneDeltaIsHonest(5, 6, Bind(key, b), server);
  }

  /** A server with plain documents, whose baseline already holds the steer's identity in the expected turn: the steer
      is confirmed by a second snapshot of the baseline's own revision. */
  lemma RecordedSteerCanConfirm(
    id: CommandId, thread: ThreadId, key: Key, a: TurnId, b: TurnId, d: DeliveryId, server: Documents.Server)
    returns (states: seq<Machine>, events: seq<Event>)
    requires a != b && server(1, 5) == Documents.OneTurn(key, a, d)
    requires server(1, 6) == server(1, 7) == Documents.OneTurn(key, b, d)
    ensures Run(states, events) && |states| == |events| + 1
    ensures var m := states[|events|];
            && id in m.pcs && m.pcs[id].Done? && m.pcs[id].outcome == Confirmed(b)
            && id in m.requests && m.requests[id] == Inject(SteerTurn(d, b))
            && thread in m.histories && m.pcs[id].since < 6 < m.pcs[id].upto == 8 < |m.histories[thread]|
            && Proof.FromDocuments(m.histories[thread][..m.pcs[id].upto], server)
            && Proof.Introduces(m.histories[thread][..m.pcs[id].upto], 6, Proof.DeliveryBound(d, b), 1, 6)
            && Agreement.Exec(m.histories[thread][..m.pcs[id].since]).revision == Some(6)
            && Proof.Recorded(server(1, 6), Proof.DeliveryBound(d, b))
  {
    hide Run, Agreement.Exec, Whole, Opening, Proof.FromDocuments;
    var first, later := SteerFirst(key, a, b, d), SteerLater(key, b, d);
    var h := Whole(first, later);
    SteerStates(key, a, b, d);
    states, events := RunToConfirmed(id, thread, SteerTurn(d, b), first, later, b);
    SteerIsHonest(key, a, b, d, server);
    var whole := states[|events|].histories[thread];
    assert whole[..8] == h && whole[..4] == h[..4];
    assert key in server(1, 6).doc && key in server(1, 6).texts && d in server(1, 6).texts[key];
  }
}
