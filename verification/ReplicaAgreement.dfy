/** What the replica is worth: its indexes stay linked, and it mirrors the document that its changes patch. */
module ReplicaAgreement {
  import opened Types
  import opened Replica

  // ---------- linked indexes ----------

  ghost predicate Linked(o: Observed) {
    // A turn is stored exactly while some key points to it.
    && (forall id :: id in o.turns ==> exists k :: k in o.keys && o.keys[k] == id)
    && (forall k :: k in o.keys ==> o.keys[k] in o.turns)
    && (forall id :: id in o.turns ==> o.turns[id].id == id)
    && (forall d :: d in o.bound ==> o.bound[d] in o.turns)
  }

  lemma BindTurnKeepsLinked(o: Observed, key: Key, turn: Turn)
    requires Linked(o)
    ensures Linked(BindTurn(o, key, turn))
  {
    var after := BindTurn(o, key, turn);
    forall id | id in after.turns ensures exists k :: k in after.keys && after.keys[k] == id {
      if id == turn.id {
        assert after.keys[key] == id;
      } else {
        var k :| k in o.keys && o.keys[k] == id;
        if k == key { assert id in o.keys[key := turn.id].Values; }
        else { assert after.keys[k] == id; }
      }
    }
    forall k | k in after.keys ensures after.keys[k] in after.turns {
      if k != key { assert after.keys[k] in after.keys.Values; }
    }
  }

  lemma DeltaKeepsLinked(o: Observed, delta: Delta)
    requires Linked(o)
    ensures Linked(ApplyDelta(o, delta))
  {
    match delta
    case Upsert(entity) => BindTurnKeepsLinked(o, entity.key, entity.turn);
    case Bind(key, id) =>
      BindTurnKeepsLinked(o, key, if id in o.turns then o.turns[id] else Turn(id, InProgress, None));
    case Remove(key) =>
      if key in o.keys {
        var after := ApplyDelta(o, delta);
        var id := o.keys[key];
        forall k | k in after.keys ensures after.keys[k] in after.turns {
          assert after.keys[k] in (o.keys - {key}).Values;
        }
        forall other | other in after.turns ensures exists k :: k in after.keys && after.keys[k] == other {
          if other == id {
            var k :| k in o.keys - {key} && (o.keys - {key})[k] == id;
            assert after.keys[k] == other;
          } else {
            var k :| k in o.keys && o.keys[k] == other;
            assert after.keys[k] == other;
          }
        }
      }
    case SetStatus(key, status) => StatusKeepsLinked(o, ApplyDelta(o, delta));
    case SetError(key, error) => StatusKeepsLinked(o, ApplyDelta(o, delta));
  }

  /** Replacing a stored turn under its own identity leaves the links alone. */
  lemma StatusKeepsLinked(o: Observed, after: Observed)
    requires Linked(o)
    requires after.keys == o.keys && after.bound == o.bound && after.turns.Keys == o.turns.Keys
    requires forall id :: id in after.turns ==> after.turns[id].id == id
    ensures Linked(after)
  {
  }

  lemma {:induction false} DeltasKeepLinked(o: Observed, deltas: seq<Delta>)
    requires Linked(o)
    ensures Linked(ApplyDeltas(o, deltas))
  {
    if deltas != [] {
      var front := deltas[..|deltas| - 1];
      DeltasKeepLinked(o, front);
      DeltaKeepsLinked(ApplyDeltas(o, front), deltas[|deltas| - 1]);
    }
  }

  lemma {:induction false} EntitiesKeepLinked(o: Observed, entities: seq<Entity>)
    requires Linked(o)
    ensures Linked(BindEntities(o, entities))
  {
    if entities != [] {
      var front, last := entities[..|entities| - 1], entities[|entities| - 1];
      EntitiesKeepLinked(o, front);
      BindTurnKeepsLinked(BindEntities(o, front), last.key, last.turn);
    }
  }

  lemma {:induction false} BindingsKeepLinked(o: Observed, bindings: seq<Binding>)
    requires Linked(o)
    ensures Linked(BindDeliveries(o, bindings))
    ensures BindDeliveries(o, bindings).keys == o.keys && BindDeliveries(o, bindings).turns == o.turns
  {
    if bindings != [] { BindingsKeepLinked(o, bindings[..|bindings| - 1]); }
  }

  lemma ContentKeepsLinked(o: Observed, change: Change)
    requires Linked(o)
    ensures change.Snapshot? ==> Linked(SnapshotContent(change))
    ensures change.Patches? ==> Linked(PatchedContent(o, change))
  {
    if change.Snapshot? {
      EntitiesKeepLinked(EMPTY, change.entities);
      BindingsKeepLinked(Seen(BindEntities(EMPTY, change.entities), change.deliveries), change.bindings);
    } else {
      DeltasKeepLinked(o, change.deltas);
      BindingsKeepLinked(Seen(ApplyDeltas(o, change.deltas), change.deliveries), change.bindings);
    }
  }

  // ---------- identities of bound deliveries ----------

  /** Every binding of the change uses an identity the change also lists. */
  ghost predicate Listed(change: Change) {
    forall b :: b in change.bindings ==> b.delivery in change.deliveries
  }

  ghost predicate BoundIsSeen(o: Observed) {
    o.bound.Keys <= o.seen
  }

  lemma {:induction false} DeltasKeepSeen(o: Observed, deltas: seq<Delta>)
    ensures ApplyDeltas(o, deltas).bound.Keys <= o.bound.Keys
    ensures ApplyDeltas(o, deltas).seen == o.seen
  {
    if deltas != [] { DeltasKeepSeen(o, deltas[..|deltas| - 1]); }
  }

  lemma {:induction false} EntitiesBindNothing(o: Observed, entities: seq<Entity>)
    ensures BindEntities(o, entities).bound.Keys <= o.bound.Keys
    ensures BindEntities(o, entities).seen == o.seen
  {
    if entities != [] { EntitiesBindNothing(o, entities[..|entities| - 1]); }
  }

  lemma {:induction false} BindingsKeepSeen(o: Observed, bindings: seq<Binding>)
    requires BoundIsSeen(o) && forall b :: b in bindings ==> b.delivery in o.seen
    ensures BoundIsSeen(BindDeliveries(o, bindings)) && BindDeliveries(o, bindings).seen == o.seen
  {
    if bindings != [] {
      assert bindings[|bindings| - 1] in bindings;
      BindingsKeepSeen(o, bindings[..|bindings| - 1]);
    }
  }

  lemma ContentKeepsSeen(o: Observed, change: Change)
    requires BoundIsSeen(o) && Listed(change)
    ensures change.Snapshot? ==> BoundIsSeen(SnapshotContent(change))
    ensures change.Patches? ==> BoundIsSeen(PatchedContent(o, change))
  {
    if change.Snapshot? {
      EntitiesBindNothing(EMPTY, change.entities);
      BindingsKeepSeen(Seen(BindEntities(EMPTY, change.entities), change.deliveries), change.bindings);
    } else {
      DeltasKeepSeen(o, change.deltas);
      BindingsKeepSeen(Seen(ApplyDeltas(o, change.deltas), change.deliveries), change.bindings);
    }
  }

  // ---------- runs of one replica ----------

  datatype Event =
    | Connect
    | Follow(generation: int)
    | Drop
    | Mark(injection: Injection)
    | Deliver(change: Change, generation: int)

  function Step(s: State, e: Event): State {
    match e
    case Connect => BeginConnecting(s)
    case Follow(generation) => BeginFollowing(s, generation)
    case Drop => Disconnect(s)
    case Mark(injection) => s.(injection := injection)
    case Deliver(change, generation) => Apply(s, change, generation)
  }

  const INITIAL := State(Disconnected, Detached, NoInjection, 0, None, EMPTY)

  function Exec(events: seq<Event>): State {
    if events == [] then INITIAL else Step(Exec(events[..|events| - 1]), events[|events| - 1])
  }

  lemma NothingHappened()
    ensures Exec([]) == INITIAL
  {
  }

  lemma ExecAppend(events: seq<Event>, e: Event)
    ensures Exec(events + [e]) == Step(Exec(events), e)
  {
    assert (events + [e])[..|events|] == events;
  }

  ghost predicate Indexed(s: State) {
    && Linked(s.observed)
    && (s.Ready() ==> s.connection == Connected && s.revision.Some?)
    && (s.revision.Some? ==> ValidRevision(s.revision))
  }

  lemma {:induction false} IndexesStayLinked(events: seq<Event>)
    ensures Indexed(Exec(events))
  {
    if events != [] {
      var before := Exec(events[..|events| - 1]);
      IndexesStayLinked(events[..|events| - 1]);
      var e := events[|events| - 1];
      if e.Deliver? { ContentKeepsLinked(before.observed, e.change); }
    }
  }

  /** Within one following the revision only grows. */
  lemma RevisionGrows(s: State, e: Event)
    ensures s.revision.Some? && !e.Follow? ==>
              && Step(s, e).revision.Some? && Step(s, e).generation == s.generation
              && Step(s, e).revision.value >= s.revision.value
  {
  }

  // ---------- agreement with the patched document itself ----------

  /** One entity of the server's document; it may not have a turn yet. */
  datatype RawEntity = RawEntity(turn: Option<TurnId>, status: TurnStatus, error: Option<ErrorInfo>)

  type Document = map<Key, RawEntity>

  /** The patch as the document itself understands it. */
  function Patch(doc: Document, delta: Delta): Document {
    match delta
    case Upsert(entity) => doc[entity.key := RawEntity(Some(entity.turn.id), entity.turn.status, entity.turn.error)]
    case Bind(key, id) => if key in doc then doc[key := doc[key].(turn := Some(id))] else doc
    case SetStatus(key, status) => if key in doc then doc[key := doc[key].(status := status)] else doc
    case SetError(key, error) => if key in doc then doc[key := doc[key].(error := error)] else doc
    case Remove(key) => doc - {key}
  }

  ghost predicate Distinct(doc: Document) {
    forall k, l :: k in doc && l in doc && doc[k].turn.Some? && doc[k].turn == doc[l].turn ==> k == l
  }

  /** The keys and turns of the replica are those of the document. */
  ghost predicate Mirrors(o: Observed, doc: Document) {
    && (forall k :: k in o.keys <==> k in doc && doc[k].turn.Some?)
    && (forall k :: k in o.keys ==> doc[k].turn == Some(o.keys[k]) && o.keys[k] in o.turns
                                    && o.turns[o.keys[k]] == Turn(o.keys[k], doc[k].status, doc[k].error))
  }

  /** Every other entity with this turn already has this status and this error. */
  predicate SharersHave(doc: Document, key: Key, id: TurnId, status: TurnStatus, error: Option<ErrorInfo>) {
    forall k :: k in doc && k != key && doc[k].turn == Some(id) ==> doc[k].status == status && doc[k].error == error
  }

  /** The document has this turn somewhere. */
  predicate HasTurn(doc: Document, id: TurnId) {
    exists k :: k in doc && doc[k].turn == Some(id)
  }

  /**
   * What the document must be like for a delta to mean the same to the replica: a change of one entity's turn must not
   * show through another entity that shares it, and a binding must name an entity that already reads like its turn does
   * elsewhere, or like a running turn without error when the turn is new.
   */
  predicate MeansTheSame(doc: Document, delta: Delta) {
    match delta
    case Upsert(entity) => SharersHave(doc, entity.key, entity.turn.id, entity.turn.status, entity.turn.error)
    case SetStatus(key, status) =>
      key in doc && doc[key].turn.Some? ==> SharersHave(doc, key, doc[key].turn.value, status, doc[key].error)
    case SetError(key, error) =>
      key in doc && doc[key].turn.Some? ==> SharersHave(doc, key, doc[key].turn.value, doc[key].status, error)
    case Bind(key, id) =>
      && key in doc
      && SharersHave(doc, key, id, doc[key].status, doc[key].error)
      && (HasTurn(doc, id) || (doc[key].status == InProgress && doc[key].error == None))
    case Remove(_) => true
  }

  /** For every document and every delta: the replica goes on mirroring the document exactly under that condition. */
  lemma MirrorsExactly(o: Observed, doc: Document, delta: Delta)
    requires Linked(o) && Mirrors(o, doc)
    ensures Mirrors(ApplyDelta(o, delta), Patch(doc, delta)) <==> MeansTheSame(doc, delta)
  {
    match delta
    case Upsert(entity) => MirrorBind(o, doc, entity.key, entity.turn);
    case Bind(key, id) => MirrorNamed(o, doc, key, id);
    case Remove(key) => MirrorRemove(o, doc, key);
    case SetStatus(key, status) => MirrorSet(o, doc, delta, key);
    case SetError(key, error) => MirrorSet(o, doc, delta, key);
  }

  lemma MirrorSet(o: Observed, doc: Document, delta: Delta, key: Key)
    requires Linked(o) && Mirrors(o, doc)
    requires (delta.SetStatus? && key == delta.statusKey) || (delta.SetError? && key == delta.errorKey)
    ensures Mirrors(ApplyDelta(o, delta), Patch(doc, delta)) <==> MeansTheSame(doc, delta)
  {
    if key in o.keys {
      var turn := o.turns[o.keys[key]];
      MirrorTurn(o, doc, key, if delta.SetStatus? then turn.(status := delta.status) else turn.(error := delta.error));
    }
  }

  /** Changing a turn in place is changing the one entity, exactly if all that share it read so already. */
  lemma MirrorTurn(o: Observed, doc: Document, key: Key, turn: Turn)
    requires Mirrors(o, doc) && key in o.keys && turn.id == o.keys[key]
    ensures Mirrors(o.(turns := o.turns[turn.id := turn]),
                    doc[key := RawEntity(Some(turn.id), turn.status, turn.error)])
            <==> SharersHave(doc, key, turn.id, turn.status, turn.error)
  {
    var after := o.(turns := o.turns[turn.id := turn]);
    var next := doc[key := RawEntity(Some(turn.id), turn.status, turn.error)];
    if Mirrors(after, next) {
      forall k | k in doc && k != key && doc[k].turn == Some(turn.id)
        ensures doc[k].status == turn.status && doc[k].error == turn.error
      {
        assert k in after.keys && after.turns[after.keys[k]] == turn;
      }
    }
  }

  lemma MirrorBind(o: Observed, doc: Document, key: Key, turn: Turn)
    requires Linked(o) && Mirrors(o, doc)
    ensures Mirrors(BindTurn(o, key, turn), doc[key := RawEntity(Some(turn.id), turn.status, turn.error)])
            <==> SharersHave(doc, key, turn.id, turn.status, turn.error)
  {
    var after, next := BindTurn(o, key, turn), doc[key := RawEntity(Some(turn.id), turn.status, turn.error)];
    BoundTurns(o, key, turn);
    hide BindTurn;
    if Mirrors(after, next) {
      forall k | k in doc && k != key && doc[k].turn == Some(turn.id)
        ensures doc[k].status == turn.status && doc[k].error == turn.error
      {
        assert k in after.keys && after.turns[after.keys[k]] == turn;
      }
    }
  }

  /** A binding gives the entity whatever the replica knows of the turn, or a running turn if it knows none. */
  lemma MirrorNamed(o: Observed, doc: Document, key: Key, id: TurnId)
    requires Linked(o) && Mirrors(o, doc)
    ensures Mirrors(ApplyDelta(o, Bind(key, id)), Patch(doc, Bind(key, id))) <==> MeansTheSame(doc, Bind(key, id))
  {
    var turn := if id in o.turns then o.turns[id] else Turn(id, InProgress, None);
    var after := BindTurn(o, key, turn);
    BoundTurns(o, key, turn);
    KnownTurnIsShown(o, doc, id);
    hide BindTurn;
    assert after.keys[key] == id && after.turns[id] == turn;
    if key in doc {
      MirrorBind(o, doc, key, turn);
      var next, plain := Patch(doc, Bind(key, id)), doc[key := RawEntity(Some(id), turn.status, turn.error)];
      if doc[key].status == turn.status && doc[key].error == turn.error { assert next == plain; }
      else { assert after.turns[after.keys[key]] != Turn(id, next[key].status, next[key].error); }
    }
  }

  /** The replica knows a turn exactly when the document has it, and as every entity with it reads. */
  lemma KnownTurnIsShown(o: Observed, doc: Document, id: TurnId)
    requires Linked(o) && Mirrors(o, doc)
    ensures id in o.turns <==> HasTurn(doc, id)
    ensures forall k :: k in doc && doc[k].turn == Some(id) ==>
              id in o.turns && o.turns[id] == Turn(id, doc[k].status, doc[k].error)
  {
    if id in o.turns {
      var k :| k in o.keys && o.keys[k] == id;
      assert doc[k].turn == Some(id);
    }
    forall k | k in doc && doc[k].turn == Some(id)
      ensures id in o.turns && o.turns[id] == Turn(id, doc[k].status, doc[k].error)
    {
      assert k in o.keys && o.keys[k] == id;
    }
  }

  /** Binding a key keeps the turn of every other key, unless it is the bound turn itself. */
  lemma BoundTurns(o: Observed, key: Key, turn: Turn)
    ensures var after := BindTurn(o, key, turn);
            && after.keys == o.keys[key := turn.id]
            && turn.id in after.turns && after.turns[turn.id] == turn
            && forall k :: k in o.keys && k != key && o.keys[k] in o.turns && o.keys[k] != turn.id ==>
                 o.keys[k] in after.turns && after.turns[o.keys[k]] == o.turns[o.keys[k]]
  {
    forall k | k in o.keys && k != key ensures o.keys[k] in o.keys[key := turn.id].Values {
      assert o.keys[key := turn.id][k] == o.keys[k];
    }
  }

  lemma MirrorRemove(o: Observed, doc: Document, key: Key)
    requires Linked(o) && Mirrors(o, doc)
    ensures Mirrors(ApplyDelta(o, Remove(key)), doc - {key})
  {
    var after := ApplyDelta(o, Remove(key));
    if key in o.keys {
      forall k | k in after.keys
        ensures after.keys[k] in after.turns && after.turns[after.keys[k]] == o.turns[o.keys[k]]
      {
        assert after.keys[k] in (o.keys - {key}).Values;
      }
    }
  }

  /** Naming an entity's turn is reported as a running turn without error; anything else is lost. */
  predicate BindIsPlain(doc: Document, delta: Delta) {
    delta.Bind? && delta.bindKey in doc && doc[delta.bindKey].turn != Some(delta.turnId) ==>
      doc[delta.bindKey].status == InProgress && doc[delta.bindKey].error == None
  }

  /** Given distinct turn identities before and after, only a binding can fail: exactly one that is not plain. */
  lemma MirrorsExactlyWhenPlain(o: Observed, doc: Document, delta: Delta)
    requires Linked(o) && Mirrors(o, doc) && Distinct(doc) && Distinct(Patch(doc, delta))
    requires delta.Bind? ==> delta.bindKey in doc
    ensures Mirrors(ApplyDelta(o, delta), Patch(doc, delta)) <==> BindIsPlain(doc, delta)
  {
    MirrorsExactly(o, doc, delta);
    DistinctHasNoSharers(doc, delta);
  }

  lemma DistinctHasNoSharers(doc: Document, delta: Delta)
    requires Distinct(doc) && Distinct(Patch(doc, delta))
    requires delta.Bind? ==> delta.bindKey in doc
    ensures MeansTheSame(doc, delta) <==> BindIsPlain(doc, delta)
  {
    var next := Patch(doc, delta);
    match delta
    case Upsert(entity) => NoSharers(next, doc, entity.key, entity.turn.id);
    case SetStatus(key, _) => if key in doc && doc[key].turn.Some? { NoSharers(doc, doc, key, doc[key].turn.value); }
    case SetError(key, _) => if key in doc && doc[key].turn.Some? { NoSharers(doc, doc, key, doc[key].turn.value); }
    case Bind(key, id) => NoSharers(next, doc, key, id);
    case Remove(_) =>
  }

  /** Where the identities are distinct and this key has the turn, no other key of the unpatched document has it. */
  lemma NoSharers(distinct: Document, doc: Document, key: Key, id: TurnId)
    requires Distinct(distinct) && key in distinct && distinct[key].turn == Some(id)
    requires forall k :: k in doc && k != key ==> k in distinct && distinct[k] == doc[k]
    ensures forall k :: k in doc && doc[k].turn == Some(id) ==> k == key
  {
  }

  // ---------- lists of edits ----------

  /** One edit of the document: told by a delta, or not told at all, whatever it does. */
  datatype Edit = Told(delta: Delta) | Untold(document: Document)

  function EditDocument(doc: Document, edit: Edit): Document {
    match edit
    case Told(delta) => Patch(doc, delta)
    case Untold(document) => document
  }

  function EditAll(doc: Document, edits: seq<Edit>): Document {
    if edits == [] then doc
    else EditDocument(EditAll(doc, edits[..|edits| - 1]), edits[|edits| - 1])
  }

  /** The deltas that a list of edits tells, in order. */
  function DeltasOf(edits: seq<Edit>): seq<Delta> {
    if edits == [] then []
    else
      var last := edits[|edits| - 1];
      DeltasOf(edits[..|edits| - 1]) + if last.Told? then [last.delta] else []
  }

  predicate Shows(doc: Document, key: Key) {
    key in doc && doc[key].turn.Some?
  }

  /** Both documents have the same entities with a turn. */
  ghost predicate ShowsTheSame(doc: Document, other: Document) {
    forall k :: (Shows(doc, k) <==> Shows(other, k)) && (Shows(doc, k) ==> doc[k] == other[k])
  }

  /** An edit that is not told must not change an entity with a turn. */
  ghost predicate EditMeansTheSame(doc: Document, edit: Edit) {
    match edit
    case Told(delta) => MeansTheSame(doc, delta)
    case Untold(document) => ShowsTheSame(doc, document)
  }

  lemma MirrorsAnother(o: Observed, doc: Document, other: Document)
    requires Mirrors(o, doc)
    ensures Mirrors(o, other) <==> ShowsTheSame(doc, other)
  {
    if Mirrors(o, other) {
      forall k ensures (Shows(doc, k) <==> Shows(other, k)) && (Shows(doc, k) ==> doc[k] == other[k]) {
        assert Shows(doc, k) <==> k in o.keys;
      }
    }
    if ShowsTheSame(doc, other) {
      forall k ensures k in o.keys <==> Shows(other, k) { assert Shows(doc, k) <==> Shows(other, k); }
    }
  }

  /** The replica mirrors the document before the edits, after them and after every edit in between. */
  ghost predicate MirrorsAllAlong(o: Observed, doc: Document, edits: seq<Edit>) {
    && Mirrors(ApplyDeltas(o, DeltasOf(edits)), EditAll(doc, edits))
    && (edits != [] ==> MirrorsAllAlong(o, doc, edits[..|edits| - 1]))
  }

  /** Every edit of the list means the same to the document it is made in. */
  ghost predicate AllMeanTheSame(doc: Document, edits: seq<Edit>) {
    edits != [] ==>
      var front := edits[..|edits| - 1];
      AllMeanTheSame(doc, front) && EditMeansTheSame(EditAll(doc, front), edits[|edits| - 1])
  }

  lemma ToldLast(o: Observed, edits: seq<Edit>)
    requires edits != []
    ensures var front, last := edits[..|edits| - 1], edits[|edits| - 1];
            ApplyDeltas(o, DeltasOf(edits))
            == if last.Told? then ApplyDelta(ApplyDeltas(o, DeltasOf(front)), last.delta)
               else ApplyDeltas(o, DeltasOf(front))
  {
    var front, last := edits[..|edits| - 1], edits[|edits| - 1];
    if last.Told? { assert (DeltasOf(front) + [last.delta])[..|DeltasOf(front)|] == DeltasOf(front); }
    else { assert DeltasOf(front) + [] == DeltasOf(front); }
  }

  /** At every point of a list of edits the replica that is told of them mirrors the document if and only if every edit
      means the same. */
  lemma {:induction false} MirrorsThroughPatches(o: Observed, doc: Document, edits: seq<Edit>)
    requires Linked(o) && Mirrors(o, doc)
    ensures MirrorsAllAlong(o, doc, edits) <==> AllMeanTheSame(doc, edits)
    ensures Linked(ApplyDeltas(o, DeltasOf(edits)))
  {
    hide Mirrors, MeansTheSame, Linked, ShowsTheSame, Patch, ApplyDelta;
    DeltasKeepLinked(o, DeltasOf(edits));
    if edits != [] {
      var front, last := edits[..|edits| - 1], edits[|edits| - 1];
      MirrorsThroughPatches(o, doc, front);
      ToldLast(o, edits);
      if MirrorsAllAlong(o, doc, front) {
        if last.Told? { MirrorsExactly(ApplyDeltas(o, DeltasOf(front)), EditAll(doc, front), last.delta); }
        else { MirrorsAnother(ApplyDeltas(o, DeltasOf(front)), EditAll(doc, front), last.document); }
      }
    }
  }

  /** Two keys sharing a turn: a status patch of one is seen through both, so distinctness is needed. */
  lemma SharedTurnDiverges(a: Key, b: Key, id: TurnId)
    requires a != b
    ensures var raw := RawEntity(Some(id), InProgress, None);
            var doc: Document := map[a := raw, b := raw];
            var o := Observed(map[a := id, b := id], map[id := Turn(id, InProgress, None)], {}, map[]);
            && Linked(o) && Mirrors(o, doc) && !Distinct(doc) && !MeansTheSame(doc, SetStatus(a, Completed))
            && !Mirrors(ApplyDelta(o, SetStatus(a, Completed)), Patch(doc, SetStatus(a, Completed)))
  {
    var doc: Document := map[a := RawEntity(Some(id), InProgress, None), b := RawEntity(Some(id), InProgress, None)];
    var o := Observed(map[a := id, b := id], map[id := Turn(id, InProgress, None)], {}, map[]);
    assert o.keys[a] == id && o.keys[b] == id;
    assert doc[a].turn == doc[b].turn;
    var after := ApplyDelta(o, SetStatus(a, Completed));
    assert after.keys[b] == id && after.turns[id].status == Completed;
    assert Patch(doc, SetStatus(a, Completed))[b].status == InProgress;
  }
}
