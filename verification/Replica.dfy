/**
 * The Desktop replica of one task: turns, the entity keys that point to them and
 * the deliveries bound to them, fenced by a generation and a revision.
 */
module Replica {
  import opened Types

  type Key(==, !new)

  type ErrorInfo(==, !new)

  datatype TurnStatus = InProgress | Completed | Interrupted | Failed

  datatype Turn = Turn(id: TurnId, status: TurnStatus, error: Option<ErrorInfo>)

  datatype Entity = Entity(key: Key, turn: Turn)

  datatype Binding = Binding(key: Key, delivery: DeliveryId)

  datatype Delta =
    | Upsert(entity: Entity)
    | Bind(bindKey: Key, turnId: TurnId)
    | SetStatus(statusKey: Key, status: TurnStatus)
    | SetError(errorKey: Key, error: Option<ErrorInfo>)
    | Remove(removeKey: Key)

  /** A change as decoded from the wire; a revision may be missing or out of range. */
  datatype Change =
    | Snapshot(revision: Option<int>, entities: seq<Entity>, deliveries: seq<DeliveryId>, bindings: seq<Binding>)
    | Patches(base: Option<int>, revision: Option<int>, deltas: seq<Delta>,
              deliveries: seq<DeliveryId>, bindings: seq<Binding>)

  datatype Connection = Disconnected | Connecting | Connected

  datatype Attachment = Detached | Following | Synchronized

  datatype Injection = NoInjection | Injecting | InjectionConfirmed | Uncertain | InjectionRejected

  datatype ChangeResult = Applied | Ignored | Resync

  const MAX_SAFE_INTEGER := 0x1F_FFFF_FFFF_FFFF

  predicate ValidRevision(revision: Option<int>) {
    revision.Some? && 0 <= revision.value <= MAX_SAFE_INTEGER
  }

  /** The observed part of the replica: three linked indexes and the delivery identities seen. */
  datatype Observed = Observed(
    keys: map<Key, TurnId>,
    turns: map<TurnId, Turn>,
    seen: set<DeliveryId>,
    bound: map<DeliveryId, TurnId>)

  const EMPTY := Observed(map[], map[], {}, map[])

  datatype State = State(
    connection: Connection,
    attachment: Attachment,
    injection: Injection,
    generation: int,
    revision: Option<int>,
    observed: Observed)
  {
    predicate Ready() {
      attachment == Synchronized
    }
  }

  // ---------- specification of the observed part ----------

  function Unbound(bound: map<DeliveryId, TurnId>, id: TurnId): map<DeliveryId, TurnId> {
    map d | d in bound && bound[d] != id :: bound[d]
  }

  /** A turn no key points to is forgotten together with its delivery bindings. */
  function Collect(o: Observed, id: TurnId): Observed {
    if id in o.keys.Values then o
    else o.(turns := o.turns - {id}, bound := Unbound(o.bound, id))
  }

  function BindTurn(o: Observed, key: Key, turn: Turn): Observed {
    var pointed := o.(keys := o.keys[key := turn.id]);
    var collected := if key in o.keys && o.keys[key] != turn.id then Collect(pointed, o.keys[key]) else pointed;
    collected.(turns := collected.turns[turn.id := turn])
  }

  function ApplyDelta(o: Observed, delta: Delta): Observed {
    match delta
    case Upsert(entity) => BindTurn(o, entity.key, entity.turn)
    case Bind(key, id) => BindTurn(o, key, if id in o.turns then o.turns[id] else Turn(id, InProgress, None))
    case SetStatus(key, status) =>
      if key in o.keys && o.keys[key] in o.turns then
        var turn := o.turns[o.keys[key]];
        o.(turns := o.turns[turn.id := turn.(status := status)])
      else o
    case SetError(key, error) =>
      if key in o.keys && o.keys[key] in o.turns then
        var turn := o.turns[o.keys[key]];
        o.(turns := o.turns[turn.id := turn.(error := error)])
      else o
    case Remove(key) =>
      if key in o.keys then Collect(o.(keys := o.keys - {key}), o.keys[key]) else o
  }

  function ApplyDeltas(o: Observed, deltas: seq<Delta>): Observed {
    if deltas == [] then o
    else ApplyDelta(ApplyDeltas(o, deltas[..|deltas| - 1]), deltas[|deltas| - 1])
  }

  function BindEntities(o: Observed, entities: seq<Entity>): Observed {
    if entities == [] then o
    else
      var last := entities[|entities| - 1];
      BindTurn(BindEntities(o, entities[..|entities| - 1]), last.key, last.turn)
  }

  function BindDelivery(o: Observed, binding: Binding): Observed {
    if binding.key in o.keys then o.(bound := o.bound[binding.delivery := o.keys[binding.key]]) else o
  }

  function BindDeliveries(o: Observed, bindings: seq<Binding>): Observed {
    if bindings == [] then o
    else BindDelivery(BindDeliveries(o, bindings[..|bindings| - 1]), bindings[|bindings| - 1])
  }

  function Seen(o: Observed, deliveries: seq<DeliveryId>): Observed {
    o.(seen := o.seen + set d | d in deliveries)
  }

  function SnapshotContent(change: Change): Observed
    requires change.Snapshot?
  {
    BindDeliveries(Seen(BindEntities(EMPTY, change.entities), change.deliveries), change.bindings)
  }

  function PatchedContent(o: Observed, change: Change): Observed
    requires change.Patches?
  {
    BindDeliveries(Seen(ApplyDeltas(o, change.deltas), change.deliveries), change.bindings)
  }

  // ---------- specification of the fence ----------

  function BeginConnecting(s: State): State {
    s.(connection := Connecting, attachment := Detached)
  }

  function BeginFollowing(s: State, generation: int): State {
    s.(connection := Connected, attachment := Following, generation := generation,
       revision := None, observed := EMPTY)
  }

  function Disconnect(s: State): State {
    s.(connection := Disconnected, attachment := Detached,
       injection := if s.injection == Injecting then Uncertain else s.injection)
  }

  function Verdict(s: State, change: Change, generation: int): ChangeResult {
    if generation != s.generation || s.connection != Connected then Ignored
    else if change.Snapshot? then
      if !ValidRevision(change.revision) then Resync
      else if s.revision.Some? && (change.revision.value < s.revision.value
                                   || (s.Ready() && change.revision == s.revision)) then Ignored
      else Applied
    else if !s.Ready() || s.revision.None? then Resync
    else if !ValidRevision(change.base) || !ValidRevision(change.revision) then Resync
    else if change.revision.value <= s.revision.value then Ignored
    else if change.base != s.revision || change.revision.value <= change.base.value then Resync
    else Applied
  }

  function Apply(s: State, change: Change, generation: int): State {
    match Verdict(s, change, generation)
    case Ignored => s
    case Resync => s.(attachment := Following)
    case Applied =>
      if change.Snapshot? then
        s.(revision := change.revision, observed := SnapshotContent(change), attachment := Synchronized)
      else
        s.(revision := change.revision, observed := PatchedContent(s.observed, change))
  }

  predicate ActiveTurn(o: Observed, id: TurnId) {
    id in o.turns && o.turns[id].status == InProgress
  }
}
