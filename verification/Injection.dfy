/** When an observed replica state proves that a Desktop command landed. */
module Injection {
  import opened Types
  import opened Replica

  datatype Command =
    | StartTurn(delivery: DeliveryId)
    | SteerTurn(delivery: DeliveryId, expected: TurnId)

  datatype Baseline = Baseline(
    deliveryObserved: bool, generation: int, revision: Option<int>, turnIds: set<TurnId>)

  predicate HasDelivery(o: Observed, delivery: DeliveryId, turn: Option<TurnId>) {
    delivery in o.seen && (turn.None? || (delivery in o.bound && o.bound[delivery] == turn.value))
  }

  function CaptureProof(command: Command, s: State): Baseline {
    Baseline(HasDelivery(s.observed, command.delivery, if command.SteerTurn? then Some(command.expected) else None),
             s.generation, s.revision, s.observed.turns.Keys)
  }

  /** The state is synchronized, still of the baseline's generation, and strictly newer. */
  predicate Newer(s: State, baseline: Baseline) {
    && s.Ready() && s.generation == baseline.generation
    && baseline.revision.Some? && s.revision.Some? && s.revision.value > baseline.revision.value
  }

  function Novel(s: State, baseline: Baseline): set<TurnId> {
    s.observed.turns.Keys - baseline.turnIds
  }

  function FindProvenStart(command: Command, s: State, baseline: Baseline): Option<TurnId>
    requires command.StartTurn?
  {
    if !Newer(s, baseline) || baseline.deliveryObserved || !HasDelivery(s.observed, command.delivery, None) then None
    else if exists id :: id in s.observed.turns && Novel(s, baseline) == {id} then
      var id :| id in s.observed.turns && Novel(s, baseline) == {id};
      Some(id)
    else None
  }

  predicate ProvesInjection(command: Command, s: State, turn: TurnId, baseline: Baseline) {
    && Newer(s, baseline)
    && turn in s.observed.turns
    && if command.SteerTurn? then !baseline.deliveryObserved && HasDelivery(s.observed, command.delivery, Some(turn))
       else turn !in baseline.turnIds
  }

  function ProvenTurn(command: Command, s: State, turn: Option<TurnId>, baseline: Baseline): Option<TurnId> {
    if turn.Some? && ProvesInjection(command, s, turn.value, baseline) then turn
    else if command.StartTurn? then FindProvenStart(command, s, baseline)
    else None
  }

  /** What a proof says about the two states it compares. */
  lemma ProofMeans(command: Command, before: State, now: State, turn: Option<TurnId>)
    requires ProvenTurn(command, now, turn, CaptureProof(command, before)).Some?
    ensures var id := ProvenTurn(command, now, turn, CaptureProof(command, before)).value;
            && Newer(now, CaptureProof(command, before))
            && id in now.observed.turns
            && (command.StartTurn? ==> id !in before.observed.turns)
            && (command.StartTurn? && turn != Some(id) ==>
                  command.delivery !in before.observed.seen && command.delivery in now.observed.seen)
            && (command.SteerTurn? ==>
                  && turn == Some(id)
                  && !HasDelivery(before.observed, command.delivery, Some(command.expected))
                  && HasDelivery(now.observed, command.delivery, Some(id)))
  {
    var baseline := CaptureProof(command, before);
    var id := ProvenTurn(command, now, turn, baseline).value;
    if command.StartTurn? && !(turn.Some? && ProvesInjection(command, now, turn.value, baseline)) {
      assert Novel(now, baseline) == {id};
      assert id in Novel(now, baseline);
    }
  }

  /** Without a reported turn a start is proven exactly by one novel turn and a newly seen delivery. */
  lemma StartProvenExactlyBy(command: Command, s: State, baseline: Baseline, id: TurnId)
    requires command.StartTurn?
    ensures FindProvenStart(command, s, baseline) == Some(id)
            <==> && Newer(s, baseline) && !baseline.deliveryObserved
                 && command.delivery in s.observed.seen
                 && id in s.observed.turns && id !in baseline.turnIds
                 && forall other :: other in s.observed.turns && other !in baseline.turnIds ==> other == id
  {
    var found := FindProvenStart(command, s, baseline);
    if found == Some(id) {
      assert Novel(s, baseline) == {id};
      forall other | other in s.observed.turns && other !in baseline.turnIds ensures other == id {
        assert other in Novel(s, baseline);
      }
      assert id in Novel(s, baseline);
    }
    if id in s.observed.turns && id !in baseline.turnIds
       && forall other :: other in s.observed.turns && other !in baseline.turnIds ==> other == id {
      assert Novel(s, baseline) == {id};
      if found.Some? {
        assert Novel(s, baseline) == {found.value};
        assert found.value in {id};
      }
    }
  }

  /** The newly synchronized state shows this turn as the command's: the reported one, if it carries the steer's
      delivery or is new since the baseline; otherwise, for a start, the only new one, once the delivery is newly
      seen. */
  ghost predicate Shows(command: Command, s: State, reported: Option<TurnId>, baseline: Baseline, id: TurnId) {
    && Newer(s, baseline) && id in s.observed.turns
    && match command
       case SteerTurn(delivery, _) =>
         && reported == Some(id) && !baseline.deliveryObserved
         && delivery in s.observed.seen && delivery in s.observed.bound && s.observed.bound[delivery] == id
       case StartTurn(delivery) =>
         && id !in baseline.turnIds
         && (reported == Some(id)
             || (&& (reported.Some? ==> reported.value !in s.observed.turns || reported.value in baseline.turnIds)
                 && !baseline.deliveryObserved && delivery in s.observed.seen
                 && forall other :: other in s.observed.turns && other !in baseline.turnIds ==> other == id))
  }

  /** That is exactly what counts as a proof. */
  lemma ProvenExactlyWhenShown(
    command: Command, s: State, reported: Option<TurnId>, baseline: Baseline, id: TurnId)
    ensures ProvenTurn(command, s, reported, baseline) == Some(id) <==> Shows(command, s, reported, baseline, id)
  {
    hide FindProvenStart;
    if command.StartTurn? { StartProvenExactlyBy(command, s, baseline, id); }
  }
}
