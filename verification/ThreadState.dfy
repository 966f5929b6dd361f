/** The replica as the process keeps it: one mutable object per followed task. */
module ThreadState {
  import opened Types
  import opened Replica
  import Fence = ReplicaFence

  class DesktopThreadState {
    var attachment: Attachment
    var connection: Connection
    var deliveryIds: set<DeliveryId>
    var deliveryTurns: map<DeliveryId, TurnId>
    var entityTurns: map<Key, TurnId>
    var generation: int
    var injection: Injection
    var revision: Option<int>
    var turns: map<TurnId, Turn>

    ghost function Observation(): Observed
      reads this
    {
      Observed(entityTurns, turns, deliveryIds, deliveryTurns)
    }

    ghost function View(): State
      reads this
    {
      State(connection, attachment, injection, generation, revision, Observation())
    }

    constructor ()
      ensures View() == State(Disconnected, Detached, NoInjection, 0, None, EMPTY)
    {
      attachment, connection, injection := Detached, Disconnected, NoInjection;
      deliveryIds, deliveryTurns, entityTurns, turns := {}, map[], map[], map[];
      generation, revision := 0, None;
    }

    method ClearObservedState()
      modifies this`deliveryIds, this`deliveryTurns, this`entityTurns, this`turns
      ensures Observation() == EMPTY
    {
      deliveryIds := {};
      deliveryTurns := map[];
      entityTurns := map[];
      turns := map[];
    }

    method DropTurnDeliveries(id: TurnId)
      modifies this`deliveryTurns
      ensures deliveryTurns == Unbound(old(deliveryTurns), id)
    {
      var pending := deliveryTurns.Keys;
      while pending != {}
        invariant pending <= deliveryTurns.Keys <= old(deliveryTurns).Keys
        invariant forall d :: d in deliveryTurns ==> deliveryTurns[d] == old(deliveryTurns)[d]
        invariant forall d :: d in old(deliveryTurns) && d !in pending ==>
                    (d in deliveryTurns <==> old(deliveryTurns)[d] != id)
        decreases pending
      {
        var d :| d in pending;
        if deliveryTurns[d] == id {
          deliveryTurns := deliveryTurns - {d};
        }
        pending := pending - {d};
      }
    }

    method BindTurn(key: Key, turn: Turn)
      modifies this`entityTurns, this`turns, this`deliveryTurns
      ensures Observation() == Replica.BindTurn(old(Observation()), key, turn)
    {
      var previous := if key in entityTurns then Some(entityTurns[key]) else None;
      entityTurns := entityTurns[key := turn.id];
      if previous.Some? && previous.value != turn.id && previous.value !in entityTurns.Values {
        turns := turns - {previous.value};
        DropTurnDeliveries(previous.value);
      }
      turns := turns[turn.id := turn];
    }

    method ApplyDelta(delta: Delta)
      modifies this`entityTurns, this`turns, this`deliveryTurns
      ensures Observation() == Replica.ApplyDelta(old(Observation()), delta)
    {
      match delta
      case Upsert(entity) => BindTurn(entity.key, entity.turn);
      case Bind(key, id) => BindTurn(key, if id in turns then turns[id] else Turn(id, InProgress, None));
      case SetStatus(key, status) =>
        if key in entityTurns && entityTurns[key] in turns {
          var turn := turns[entityTurns[key]];
          turns := turns[turn.id := turn.(status := status)];
        }
      case SetError(key, error) =>
        if key in entityTurns && entityTurns[key] in turns {
          var turn := turns[entityTurns[key]];
          turns := turns[turn.id := turn.(error := error)];
        }
      case Remove(key) =>
        if key in entityTurns {
          var id := entityTurns[key];
          entityTurns := entityTurns - {key};
          if id !in entityTurns.Values {
            turns := turns - {id};
            DropTurnDeliveries(id);
          }
        }
    }

    method AddDeliveries(deliveries: seq<DeliveryId>)
      modifies this`deliveryIds
      ensures Observation() == Seen(old(Observation()), deliveries)
    {
      for i := 0 to |deliveries|
        invariant deliveryIds == old(deliveryIds) + set d | d in deliveries[..i]
      {
        deliveryIds := deliveryIds + {deliveries[i]};
        assert deliveries[..i + 1] == deliveries[..i] + [deliveries[i]];
      }
      assert deliveries[..|deliveries|] == deliveries;
    }

    method BindDeliveries(bindings: seq<Binding>)
      modifies this`deliveryTurns
      ensures Observation() == Replica.BindDeliveries(old(Observation()), bindings)
    {
      for i := 0 to |bindings|
        invariant Observation() == Replica.BindDeliveries(old(Observation()), bindings[..i])
      {
        if bindings[i].key in entityTurns {
          deliveryTurns := deliveryTurns[bindings[i].delivery := entityTurns[bindings[i].key]];
        }
        assert bindings[..i + 1][..i] == bindings[..i];
      }
      assert bindings[..|bindings|] == bindings;
    }

    method BeginConnecting()
      modifies this
      ensures View() == Replica.BeginConnecting(old(View()))
    {
      connection := Connecting;
      attachment := Detached;
    }

    method BeginFollowing(next: int)
      modifies this
      ensures View() == Replica.BeginFollowing(old(View()), next)
    {
      connection := Connected;
      attachment := Following;
      generation := next;
      revision := None;
      ClearObservedState();
    }

    method Disconnect()
      modifies this
      ensures View() == Replica.Disconnect(old(View()))
    {
      connection := Disconnected;
      attachment := Detached;
      if injection == Injecting { injection := Uncertain; }
    }

    method SetInjection(next: Injection)
      modifies this`injection
      ensures View() == old(View()).(injection := next)
    {
      injection := next;
    }

    method RequestResync() returns (result: ChangeResult)
      modifies this`attachment
      ensures result == Resync && attachment == Following
    {
      attachment := Following;
      result := Resync;
    }

    method ApplySnapshot(change: Change) returns (result: ChangeResult)
      requires change.Snapshot? && connection == Connected
      modifies this
      ensures View() == Replica.Apply(old(View()), change, old(generation))
      ensures result == Verdict(old(View()), change, old(generation))
    {
      if !ValidRevision(change.revision) {
        result := RequestResync();
        return;
      }
      if revision.Some? && (change.revision.value < revision.value
                            || (attachment == Synchronized && change.revision == revision)) {
        return Ignored;
      }
      revision := change.revision;
      ClearObservedState();
      for i := 0 to |change.entities|
        invariant Observation() == BindEntities(EMPTY, change.entities[..i])
        invariant connection == old(connection) && attachment == old(attachment) && injection == old(injection)
        invariant generation == old(generation) && revision == change.revision
      {
        BindTurn(change.entities[i].key, change.entities[i].turn);
        assert change.entities[..i + 1][..i] == change.entities[..i];
      }
      assert change.entities[..|change.entities|] == change.entities;
      AddDeliveries(change.deliveries);
      BindDeliveries(change.bindings);
      attachment := Synchronized;
      result := Applied;
    }

    /** Patches that do not join on cost a replica its synchronization, and any that are newer and do are taken. */
    method ApplyPatches(change: Change) returns (result: ChangeResult)
      requires change.Patches? && connection == Connected
      modifies this
      ensures old(attachment) == Synchronized && old(revision).Some? ==>
                && (Fence.Unreadable(change) ==> attachment == Following && result == Resync)
                && (Fence.IsNewer(change.revision, old(revision)) && change.base != old(revision) ==>
                      attachment == Following && result == Resync)
                && (!Fence.Unreadable(change) && change.base == old(revision)
                    && Fence.IsNewer(change.revision, old(revision)) ==>
                      attachment == Synchronized && revision == change.revision && result == Applied)
      ensures View() == Replica.Apply(old(View()), change, old(generation))
      ensures result == Verdict(old(View()), change, old(generation))
    {
      if attachment != Synchronized || revision.None? {
        result := RequestResync();
        return;
      }
      if !ValidRevision(change.base) || !ValidRevision(change.revision) {
        result := RequestResync();
        return;
      }
      if change.revision.value <= revision.value { return Ignored; }
      if change.base != revision || change.revision.value <= change.base.value {
        result := RequestResync();
        return;
      }
      for i := 0 to |change.deltas|
        invariant Observation() == ApplyDeltas(old(Observation()), change.deltas[..i])
        invariant connection == old(connection) && attachment == old(attachment) && injection == old(injection)
        invariant generation == old(generation) && revision == old(revision)
      {
        ApplyDelta(change.deltas[i]);
        assert change.deltas[..i + 1][..i] == change.deltas[..i];
      }
      assert change.deltas[..|change.deltas|] == change.deltas;
      AddDeliveries(change.deliveries);
      BindDeliveries(change.bindings);
      revision := change.revision;
      result := Applied;
    }

    method Apply(change: Change, current: int) returns (result: ChangeResult)
      modifies this
      ensures View() == Replica.Apply(old(View()), change, current)
      ensures result == Verdict(old(View()), change, current)
    {
      if current != generation || connection != Connected { return Ignored; }
      if change.Snapshot? {
        result := ApplySnapshot(change);
      } else {
        result := ApplyPatches(change);
      }
    }

    method HasMultipleActiveTurns() returns (many: bool)
      ensures many <==> exists a, b :: ActiveTurn(Observation(), a) && ActiveTurn(Observation(), b) && a != b
    {
      var count := 0;
      var pending := turns.Keys;
      ghost var active: Option<TurnId> := None;
      while pending != {}
        invariant pending <= turns.Keys
        invariant count == if active.Some? then 1 else 0
        invariant forall a :: ActiveTurn(Observation(), a) && a !in pending ==> active == Some(a)
        invariant active.Some? ==> ActiveTurn(Observation(), active.value) && active.value !in pending
        decreases pending
      {
        var id :| id in pending;
        pending := pending - {id};
        if turns[id].status == InProgress {
          count := count + 1;
          if count > 1 {
            assert ActiveTurn(Observation(), active.value) && ActiveTurn(Observation(), id);
            return true;
          }
          active := Some(id);
        }
      }
      many := false;
    }
  }
}
