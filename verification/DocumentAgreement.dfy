/**
 * The replica against the server's own documents, over every run: the turns it
 * shows of them, and the delivery identities it knows.
 */
module DocumentAgreement {
  import opened Types
  import opened Replica
  import opened ReplicaAgreement

  /** The delivery identities inside each entity of a document. */
  type Texts = map<Key, set<DeliveryId>>

  datatype Version = Version(doc: Document, texts: Texts)

  /** The server's document of the task, by generation and revision. */
  type Server = (int, int) -> Version

  // ---------- turns ----------

  /** Entities that share a turn read alike. */
  ghost predicate Consistent(doc: Document) {
    forall k, l :: Shows(doc, k) && Shows(doc, l) && doc[k].turn == doc[l].turn ==> doc[k] == doc[l]
  }

  function Raw(turn: Turn): RawEntity {
    RawEntity(Some(turn.id), turn.status, turn.error)
  }

  ghost predicate EachIn(entities: seq<Entity>, doc: Document) {
    forall e :: e in entities ==> e.key in doc && doc[e.key] == Raw(e.turn)
  }

  /** The list has exactly the entities of the document that have a turn. */
  ghost predicate ListsEntities(entities: seq<Entity>, doc: Document) {
    EachIn(entities, doc) && forall k :: Shows(doc, k) ==> exists e :: e in entities && e.key == k
  }

  /** The part of the document that these entities make up. */
  ghost function Part(doc: Document, entities: seq<Entity>): Document {
    map k | k in doc && exists e :: e in entities && e.key == k :: doc[k]
  }

  lemma {:induction false} EntitiesMirror(entities: seq<Entity>, doc: Document)
    requires Consistent(doc) && EachIn(entities, doc)
    ensures Linked(BindEntities(EMPTY, entities))
    ensures Mirrors(BindEntities(EMPTY, entities), Part(doc, entities))
  {
    hide Linked, Mirrors, BindTurn;
    EntitiesKeepLinked(EMPTY, entities);
    if entities == [] {
      assert Part(doc, entities) == map[];
      NothingMirrors();
    } else {
      var front, last := entities[..|entities| - 1], entities[|entities| - 1];
      EntitiesMirror(front, doc);
      EntitiesKeepLinked(EMPTY, front);
      MirrorBind(BindEntities(EMPTY, front), Part(doc, front), last.key, last.turn);
      PartGrows(doc, front, last);
      assert front + [last] == entities;
    }
  }

  lemma NothingMirrors()
    ensures Linked(EMPTY) && Mirrors(EMPTY, map[])
  {
  }

  lemma PartGrows(doc: Document, front: seq<Entity>, last: Entity)
    requires Consistent(doc) && EachIn(front + [last], doc)
    ensures Part(doc, front + [last]) == Part(doc, front)[last.key := Raw(last.turn)]
    ensures SharersHave(Part(doc, front), last.key, last.turn.id, last.turn.status, last.turn.error)
  {
    assert last in front + [last];
    var part := Part(doc, front);
    forall k | k in part && k != last.key && part[k].turn == Some(last.turn.id)
      ensures part[k].status == last.turn.status && part[k].error == last.turn.error
    {
      assert Shows(doc, k) && Shows(doc, last.key);
    }
  }

  lemma MirroredIsConsistent(o: Observed, doc: Document)
    requires Mirrors(o, doc)
    ensures Consistent(doc)
  {
    forall k, l | Shows(doc, k) && Shows(doc, l) && doc[k].turn == doc[l].turn ensures doc[k] == doc[l] {
      assert k in o.keys && l in o.keys;
    }
  }

  /** A replica that takes a list of the document's entities mirrors the document if and only if entities that share a
      turn read alike. */
  lemma SnapshotMirrorsExactly(entities: seq<Entity>, doc: Document)
    requires ListsEntities(entities, doc)
    ensures Mirrors(BindEntities(EMPTY, entities), doc) <==> Consistent(doc)
  {
    hide BindEntities;
    var o := BindEntities(EMPTY, entities);
    if Mirrors(o, doc) { MirroredIsConsistent(o, doc); }
    if Consistent(doc) {
      EntitiesMirror(entities, doc);
      forall k ensures Shows(Part(doc, entities), k) <==> Shows(doc, k) {
        if Shows(doc, k) {
          var e :| e in entities && e.key == k;
        }
      }
      MirrorsAnother(o, Part(doc, entities), doc);
    }
  }

  /** These edits turn one document into the other, tell these deltas, and each means the same to the replica. */
  ghost predicate Turns(before: Document, after: Document, deltas: seq<Delta>, edits: seq<Edit>) {
    EditAll(before, edits) == after && DeltasOf(edits) == deltas && AllMeanTheSame(before, edits)
  }

  /** A change as a server sends it that has these documents: all of one, or edits that turn one into another. */
  ghost predicate Honest(change: Change, generation: int, server: Server) {
    && (change.Snapshot? && ValidRevision(change.revision) ==>
          var doc := server(generation, change.revision.value).doc;
          ListsEntities(change.entities, doc) && Consistent(doc))
    && (change.Patches? && ValidRevision(change.base) && ValidRevision(change.revision) ==>
          exists edits :: Turns(server(generation, change.base.value).doc,
                                server(generation, change.revision.value).doc, change.deltas, edits))
  }

  ghost predicate AllHonest(events: seq<Event>, server: Server) {
    forall e :: e in events && e.Deliver? ==> Honest(e.change, e.generation, server)
  }

  ghost predicate Agrees(s: State, server: Server) {
    s.revision.Some? ==> Mirrors(s.observed, server(s.generation, s.revision.value).doc)
  }

  lemma SnapshotAgrees(change: Change, doc: Document)
    requires change.Snapshot? && ListsEntities(change.entities, doc) && Consistent(doc)
    ensures Mirrors(SnapshotContent(change), doc)
  {
    hide BindEntities, Consistent, ListsEntities, Linked;
    SnapshotMirrorsExactly(change.entities, doc);
    NothingMirrors();
    EntitiesKeepLinked(EMPTY, change.entities);
    OnlyTurnsMirror(BindEntities(EMPTY, change.entities), change.deliveries, change.bindings, doc);
  }

  /** Identities do not show in what the replica mirrors. */
  lemma OnlyTurnsMirror(o: Observed, deliveries: seq<DeliveryId>, bindings: seq<Binding>, doc: Document)
    requires Linked(o) && Mirrors(o, doc)
    ensures Mirrors(BindDeliveries(Seen(o, deliveries), bindings), doc)
  {
    BindingsKeepLinked(Seen(o, deliveries), bindings);
  }

  lemma PatchesAgree(o: Observed, change: Change, before: Document, after: Document, edits: seq<Edit>)
    requires Linked(o) && Mirrors(o, before) && change.Patches? && Turns(before, after, change.deltas, edits)
    ensures Mirrors(ApplyDeltas(o, change.deltas), after) && Linked(ApplyDeltas(o, change.deltas))
    ensures Mirrors(PatchedContent(o, change), after)
  {
    hide Linked, Mirrors, ApplyDeltas, AllMeanTheSame;
    MirrorsThroughPatches(o, before, edits);
    OnlyTurnsMirror(ApplyDeltas(o, change.deltas), change.deliveries, change.bindings, after);
  }

  lemma StepAgrees(s: State, e: Event, server: Server)
    requires Indexed(s) && Agrees(s, server) && (e.Deliver? ==> Honest(e.change, e.generation, server))
    ensures Agrees(Step(s, e), server)
  {
    hide Linked, Mirrors, ListsEntities, Consistent, SnapshotContent, PatchedContent;
    if e.Deliver? && Verdict(s, e.change, e.generation) == Applied {
      var change, version := e.change, server(s.generation, e.change.revision.value);
      if change.Snapshot? {
        SnapshotAgrees(change, version.doc);
      } else {
        var before := server(s.generation, change.base.value).doc;
        var edits :| Turns(before, version.doc, change.deltas, edits);
        PatchesAgree(s.observed, change, before, version.doc, edits);
      }
    }
  }

  /** Whatever the network drops, repeats or reorders: a replica with a revision mirrors the server's document at that
      revision, if snapshots list consistent documents and every edit between two documents means the same. */
  lemma {:induction false} ReplicaAgrees(events: seq<Event>, server: Server)
    requires AllHonest(events, server)
    ensures Agrees(Exec(events), server)
  {
    hide Honest;
    if events != [] {
      var front, last := events[..|events| - 1], events[|events| - 1];
      assert last in events;
      ReplicaAgrees(front, server);
      IndexesStayLinked(front);
      StepAgrees(Exec(front), last, server);
    }
  }

  /** Mirroring fixes the keys and the turns: they are those of the document and nothing else. */
  lemma MirroringDetermines(o: Observed, other: Observed, doc: Document)
    requires Linked(o) && Linked(other) && Mirrors(o, doc) && Mirrors(other, doc)
    ensures o.keys == other.keys && o.turns == other.turns
  {
    assert o.keys == other.keys by { SameKeys(o, other, doc); }
    forall id ensures (id in o.turns <==> id in other.turns) && (id in o.turns ==> o.turns[id] == other.turns[id]) {
      SameTurn(o, other, doc, id);
    }
    hide Linked, Mirrors;
  }

  lemma SameKeys(o: Observed, other: Observed, doc: Document)
    requires Mirrors(o, doc) && Mirrors(other, doc)
    ensures o.keys == other.keys
  {
    forall k ensures k in o.keys <==> k in other.keys {}
  }

  lemma SameTurn(o: Observed, other: Observed, doc: Document, id: TurnId)
    requires Linked(o) && Linked(other) && Mirrors(o, doc) && Mirrors(other, doc)
    ensures id in o.turns <==> id in other.turns
    ensures id in o.turns ==> o.turns[id] == other.turns[id]
  {
    hide Linked, Mirrors;
    KnownTurnIsShown(o, doc, id);
    KnownTurnIsShown(other, doc, id);
  }

  // ---------- delivery identities ----------

  /** Some entity holds this identity. */
  ghost predicate Held(texts: Texts, d: DeliveryId) {
    exists k :: k in texts && d in texts[k]
  }

  /** An entity with this turn holds this identity. */
  ghost predicate HeldBy(version: Version, d: DeliveryId, id: TurnId) {
    exists k :: k in version.doc && version.doc[k].turn == Some(id) && k in version.texts && d in version.texts[k]
  }

  ghost predicate SeenMatches(seen: set<DeliveryId>, texts: Texts) {
    forall d :: d in seen <==> Held(texts, d)
  }

  /** The identity is bound exactly if a turn holds it, and to one that does. */
  ghost predicate BoundMatchesAt(bound: map<DeliveryId, TurnId>, version: Version, d: DeliveryId) {
    && (d in bound ==> HeldBy(version, d, bound[d]))
    && (forall id :: HeldBy(version, d, id) ==> d in bound)
  }

  ghost predicate BoundMatches(bound: map<DeliveryId, TurnId>, version: Version) {
    forall d :: BoundMatchesAt(bound, version, d)
  }

  /** The last of these bindings of the identity to an entity with a turn. */
  function Rebound(doc: Document, bindings: seq<Binding>, d: DeliveryId): Option<TurnId> {
    if bindings == [] then None
    else
      var last := bindings[|bindings| - 1];
      if last.delivery == d && Shows(doc, last.key) then doc[last.key].turn
      else Rebound(doc, bindings[..|bindings| - 1], d)
  }

  lemma {:induction false} BoundByLast(o: Observed, doc: Document, bindings: seq<Binding>, d: DeliveryId)
    requires Mirrors(o, doc)
    ensures var after, rebound := BindDeliveries(o, bindings), Rebound(doc, bindings, d);
            && after.keys == o.keys && after.seen == o.seen
            && (d in after.bound <==> rebound.Some? || d in o.bound)
            && (d in after.bound ==> after.bound[d] == if rebound.Some? then rebound.value else o.bound[d])
  {
    if bindings != [] { BoundByLast(o, doc, bindings[..|bindings| - 1], d); }
  }

  lemma {:induction false} ReboundMeans(doc: Document, bindings: seq<Binding>, d: DeliveryId)
    ensures var rebound := Rebound(doc, bindings, d);
            && (rebound.Some? ==>
                  exists k :: Binding(k, d) in bindings && Shows(doc, k) && doc[k].turn == rebound)
            && (forall k :: Binding(k, d) in bindings && Shows(doc, k) ==> rebound.Some?)
  {
    if bindings != [] {
      var front, last := bindings[..|bindings| - 1], bindings[|bindings| - 1];
      ReboundMeans(doc, front, d);
      assert last in bindings;
      if last.delivery == d && Shows(doc, last.key) {
        assert Binding(last.key, d) in bindings;
      } else {
        if Rebound(doc, front, d).Some? {
          var k :| Binding(k, d) in front && Shows(doc, k) && doc[k].turn == Rebound(doc, front, d);
          assert Binding(k, d) in bindings;
        }
        forall k | Binding(k, d) in bindings && Shows(doc, k) ensures Binding(k, d) in front {
          assert Binding(k, d) != last;
        }
      }
    }
  }

  /** The identities of a snapshot: all that entities hold, each with the keys of those entities. */
  ghost predicate ListsIdentities(deliveries: seq<DeliveryId>, bindings: seq<Binding>, texts: Texts) {
    && (forall d :: d in deliveries <==> Held(texts, d))
    && (forall k, d :: Binding(k, d) in bindings <==> k in texts && d in texts[k])
  }

  lemma SnapshotKnowsIdentities(change: Change, version: Version)
    requires change.Snapshot? && ListsEntities(change.entities, version.doc) && Consistent(version.doc)
    requires ListsIdentities(change.deliveries, change.bindings, version.texts)
    ensures SeenMatches(SnapshotContent(change).seen, version.texts)
    ensures BoundMatches(SnapshotContent(change).bound, version)
    ensures forall d :: d in SnapshotContent(change).bound ==>
              Some(SnapshotContent(change).bound[d]) == Rebound(version.doc, change.bindings, d)
  {
    hide BindEntities, BindDeliveries, ListsEntities, Consistent, Mirrors, Rebound, HeldBy, Held;
    var o := Seen(BindEntities(EMPTY, change.entities), change.deliveries);
    EntitiesBindNothing(EMPTY, change.entities);
    SnapshotMirrorsExactly(change.entities, version.doc);
    SeenMirrors(BindEntities(EMPTY, change.entities), change.deliveries, version.doc);
    BindingsSeeNothing(o, change.bindings);
    forall d
      ensures BoundMatchesAt(SnapshotContent(change).bound, version, d)
              && (d in SnapshotContent(change).bound ==>
                    Some(SnapshotContent(change).bound[d]) == Rebound(version.doc, change.bindings, d))
    {
      BoundByLast(o, version.doc, change.bindings, d);
      ListedIsHeld(change.deliveries, change.bindings, version, d);
    }
  }

  lemma SeenMirrors(o: Observed, deliveries: seq<DeliveryId>, doc: Document)
    requires Mirrors(o, doc)
    ensures Mirrors(Seen(o, deliveries), doc)
  {
  }

  lemma {:induction false} BindingsSeeNothing(o: Observed, bindings: seq<Binding>)
    ensures BindDeliveries(o, bindings).seen == o.seen
  {
    if bindings != [] { BindingsSeeNothing(o, bindings[..|bindings| - 1]); }
  }

  lemma ListedIsHeld(deliveries: seq<DeliveryId>, bindings: seq<Binding>, version: Version, d: DeliveryId)
    requires ListsIdentities(deliveries, bindings, version.texts)
    ensures var rebound := Rebound(version.doc, bindings, d);
            && (rebound.Some? ==> HeldBy(version, d, rebound.value))
            && (forall id :: HeldBy(version, d, id) ==> rebound.Some?)
  {
    ReboundMeans(version.doc, bindings, d);
    forall id | HeldBy(version, d, id) ensures Rebound(version.doc, bindings, d).Some? {
      var k :| k in version.doc && version.doc[k].turn == Some(id) && k in version.texts && d in version.texts[k];
      assert Binding(k, d) in bindings;
    }
  }

  /** The document has this turn before the edits, after them and after every edit in between. */
  predicate Stays(doc: Document, edits: seq<Edit>, id: TurnId) {
    HasTurn(EditAll(doc, edits), id) && (edits != [] ==> Stays(doc, edits[..|edits| - 1], id))
  }

  /** A delta drops exactly the bindings to a turn it removes. */
  lemma DeltaKeepsBound(o: Observed, delta: Delta, d: DeliveryId)
    requires Linked(o)
    ensures var after := ApplyDelta(o, delta);
            && (d in after.bound <==> d in o.bound && o.bound[d] in after.turns)
            && (d in after.bound ==> after.bound[d] == o.bound[d])
  {
  }

  lemma {:induction false} BoundThroughEdits(o: Observed, doc: Document, edits: seq<Edit>, d: DeliveryId)
    requires Linked(o) && Mirrors(o, doc) && AllMeanTheSame(doc, edits)
    ensures var after := ApplyDeltas(o, DeltasOf(edits));
            && (d in after.bound <==> d in o.bound && Stays(doc, edits, o.bound[d]))
            && (d in after.bound ==> after.bound[d] == o.bound[d])
  {
    hide Mirrors, Linked, ApplyDelta, MeansTheSame, ShowsTheSame, Patch, HasTurn;
    if edits == [] {
      if d in o.bound { BoundTurnIsShown(o, doc, d); }
    } else {
      var front, last := edits[..|edits| - 1], edits[|edits| - 1];
      var between := ApplyDeltas(o, DeltasOf(front));
      BoundThroughEdits(o, doc, front, d);
      ToldLast(o, edits);
      MirrorsThroughPatches(o, doc, front);
      MirrorsThroughPatches(o, doc, edits);
      if last.Told? { DeltaKeepsBound(between, last.delta, d); }
      if d in between.bound {
        EditKeepsTurn(between, ApplyDeltas(o, DeltasOf(edits)), EditAll(doc, front), EditAll(doc, edits),
                      between.bound[d], last.Told?);
        BoundTurnIsShown(between, EditAll(doc, front), d);
      }
    }
  }

  lemma BoundTurnIsShown(o: Observed, doc: Document, d: DeliveryId)
    requires Linked(o) && Mirrors(o, doc) && d in o.bound
    ensures HasTurn(doc, o.bound[d]) && o.bound[d] in o.turns
  {
    KnownTurnIsShown(o, doc, o.bound[d]);
  }

  /** The replica knows the turn after an edit exactly if the document has it then. */
  lemma EditKeepsTurn(before: Observed, after: Observed, doc: Document, next: Document, id: TurnId, told: bool)
    requires Linked(before) && Linked(after) && Mirrors(before, doc) && Mirrors(after, next)
    requires !told ==> after == before
    ensures id in after.turns <==> HasTurn(next, id)
    ensures id in before.turns <==> HasTurn(doc, id)
  {
    KnownTurnIsShown(before, doc, id);
    KnownTurnIsShown(after, next, id);
  }

  /** The identities held after the change are those held before and those it lists. */
  ghost predicate SeenKept(before: Texts, deliveries: seq<DeliveryId>, after: Texts) {
    forall d :: Held(after, d) <==> Held(before, d) || d in deliveries
  }

  /**
   * What the change must do for one identity: if it binds it to a turn, that turn holds it afterwards; otherwise if the
   * turn it was bound to was there all along, that one still does; otherwise no turn holds it.
   */
  ghost predicate IdentityKept(
    bound: map<DeliveryId, TurnId>, before: Document, edits: seq<Edit>, bindings: seq<Binding>, after: Version,
    d: DeliveryId)
  {
    var rebound := Rebound(after.doc, bindings, d);
    if rebound.Some? then HeldBy(after, d, rebound.value)
    else if d in bound && Stays(before, edits, bound[d]) then HeldBy(after, d, bound[d])
    else forall id :: !HeldBy(after, d, id)
  }

  ghost predicate BoundKept(
    bound: map<DeliveryId, TurnId>, before: Document, edits: seq<Edit>, bindings: seq<Binding>, after: Version)
  {
    forall d :: IdentityKept(bound, before, edits, bindings, after, d)
  }

  /** After patches the identities seen are those of the document if and only if none disappeared and each new one was
      listed; and those bound, if and only if the change does for each of them what it must. */
  lemma IdentitiesMatchExactly(o: Observed, before: Version, edits: seq<Edit>, change: Change, after: Version)
    requires Linked(o) && Mirrors(o, before.doc) && SeenMatches(o.seen, before.texts)
    requires change.Patches? && Turns(before.doc, after.doc, change.deltas, edits)
    ensures SeenMatches(PatchedContent(o, change).seen, after.texts)
            <==> SeenKept(before.texts, change.deliveries, after.texts)
    ensures BoundMatches(PatchedContent(o, change).bound, after)
            <==> BoundKept(o.bound, before.doc, edits, change.bindings, after)
  {
    hide Linked, Mirrors, ApplyDeltas, AllMeanTheSame, BindDeliveries, Held, HeldBy, IdentityKept, BoundMatchesAt;
    DeltasKeepSeen(o, change.deltas);
    BindingsSeeNothing(Seen(ApplyDeltas(o, change.deltas), change.deliveries), change.bindings);
    forall d ensures BoundMatchesAt(PatchedContent(o, change).bound, after, d)
                     <==> IdentityKept(o.bound, before.doc, edits, change.bindings, after, d)
    {
      IdentityMatchesExactly(o, before.doc, edits, change, after, d);
    }
  }

  lemma IdentityMatchesExactly(
    o: Observed, before: Document, edits: seq<Edit>, change: Change, after: Version, d: DeliveryId)
    requires Linked(o) && Mirrors(o, before)
    requires change.Patches? && Turns(before, after.doc, change.deltas, edits)
    ensures BoundMatchesAt(PatchedContent(o, change).bound, after, d)
            <==> IdentityKept(o.bound, before, edits, change.bindings, after, d)
  {
    hide Linked, Mirrors, ApplyDeltas, AllMeanTheSame, BindDeliveries, HeldBy, Stays, EditAll, DeltasOf;
    var patched := ApplyDeltas(o, change.deltas);
    PatchesAgree(o, change, before, after.doc, edits);
    BoundThroughEdits(o, before, edits, d);
    SeenMirrors(patched, change.deliveries, after.doc);
    BoundByLast(Seen(patched, change.deliveries), after.doc, change.bindings, d);
  }

  /** A snapshot lists all identities of its document. */
  ghost predicate Complete(change: Change, generation: int, server: Server) {
    change.Snapshot? && ValidRevision(change.revision) ==>
      ListsIdentities(change.deliveries, change.bindings, server(generation, change.revision.value).texts)
  }

  ghost predicate AllComplete(events: seq<Event>, server: Server) {
    forall e :: e in events && e.Deliver? ==> Complete(e.change, e.generation, server)
  }

  /** Identities too: a snapshot lists all of them, and patches keep them whatever matching binding was there before. */
  ghost predicate Identified(change: Change, generation: int, server: Server) {
    && Complete(change, generation, server)
    && (change.Patches? && ValidRevision(change.base) && ValidRevision(change.revision) ==>
          IdentitiesKept(server(generation, change.base.value), change, server(generation, change.revision.value)))
  }

  ghost predicate IdentitiesKept(before: Version, change: Change, after: Version)
    requires change.Patches?
  {
    && SeenKept(before.texts, change.deliveries, after.texts)
    && exists edits :: Turns(before.doc, after.doc, change.deltas, edits)
                       && BoundAlwaysKept(before, edits, change.bindings, after)
  }

  ghost predicate BoundAlwaysKept(before: Version, edits: seq<Edit>, bindings: seq<Binding>, after: Version) {
    forall bound :: BoundMatches(bound, before) ==> BoundKept(bound, before.doc, edits, bindings, after)
  }

  ghost predicate Knows(s: State, server: Server) {
    s.revision.Some? ==>
      && SeenMatches(s.observed.seen, server(s.generation, s.revision.value).texts)
      && BoundMatches(s.observed.bound, server(s.generation, s.revision.value))
  }

  lemma StepKnows(s: State, e: Event, server: Server)
    requires Indexed(s) && Agrees(s, server) && Knows(s, server)
    requires e.Deliver? ==> Honest(e.change, e.generation, server) && Identified(e.change, e.generation, server)
    ensures Knows(Step(s, e), server)
  {
    hide Linked, Mirrors, ListsEntities, Consistent, SnapshotContent, PatchedContent, SeenMatches, BoundMatches;
    hide ListsIdentities, SeenKept, BoundKept, Turns;
    if e.Deliver? && Verdict(s, e.change, e.generation) == Applied {
      var change, version := e.change, server(s.generation, e.change.revision.value);
      if change.Snapshot? {
        SnapshotKnowsIdentities(change, version);
      } else {
        var before := server(s.generation, change.base.value);
        var edits :| Turns(before.doc, version.doc, change.deltas, edits)
                     && BoundAlwaysKept(before, edits, change.bindings, version);
        IdentitiesMatchExactly(s.observed, before, edits, change, version);
      }
    }
  }

  /** Whatever the network drops, repeats or reorders: under that condition on each change, a replica with a revision
      has seen exactly the identities of the server's document at it, and bound each that a turn holds to one that does.
   */
  lemma {:induction false} IdentitiesAgree(events: seq<Event>, server: Server)
    requires AllHonest(events, server)
    requires forall e :: e in events && e.Deliver? ==> Identified(e.change, e.generation, server)
    ensures Knows(Exec(events), server)
  {
    hide Honest, Identified, Knows, Agrees;
    if events == [] {
      NothingKnown(server);
    } else {
      var front, last := events[..|events| - 1], events[|events| - 1];
      assert last in events;
      IdentitiesAgree(front, server);
      ReplicaAgrees(front, server);
      IndexesStayLinked(front);
      StepKnows(Exec(front), last, server);
    }
  }

  lemma NothingKnown(server: Server)
    ensures Knows(INITIAL, server)
  {
  }

  // ---------- every document has an honest snapshot ----------

  /** The elements of a set in some order. */
  ghost function Listing<T(!new)>(elements: set<T>): (list: seq<T>)
    ensures forall x :: x in list <==> x in elements
  {
    if elements == {} then [] else
      var x :| x in elements;
      [x] + Listing(elements - {x})
  }

  /** The snapshot of a document, with one holder of an identity listed last. */
  ghost function WholeSnapshot(revision: Option<int>, version: Version, holder: Key, d: DeliveryId): Change {
    var doc := version.doc;
    Snapshot(
      revision,
      Listing(set k | k in doc && doc[k].turn.Some?
                   :: Entity(k, Turn(doc[k].turn.value, doc[k].status, doc[k].error))),
      Listing(set k, e | k in version.texts && e in version.texts[k] :: e),
      Listing(set k, e | k in version.texts && e in version.texts[k] :: Binding(k, e)) + [Binding(holder, d)])
  }

  lemma WholeSnapshotLists(revision: Option<int>, version: Version, holder: Key, d: DeliveryId)
    requires holder in version.texts && d in version.texts[holder]
    ensures var change := WholeSnapshot(revision, version, holder, d);
            && change.Snapshot? && change.revision == revision
            && ListsEntities(change.entities, version.doc)
            && ListsIdentities(change.deliveries, change.bindings, version.texts)
            && (Shows(version.doc, holder) ==>
                  Rebound(version.doc, change.bindings, d) == version.doc[holder].turn)
  {
    var change, doc := WholeSnapshot(revision, version, holder, d), version.doc;
    forall k | Shows(doc, k) ensures exists e :: e in change.entities && e.key == k {
      assert Entity(k, Turn(doc[k].turn.value, doc[k].status, doc[k].error)) in change.entities;
    }
  }

  // ---------- where identities do not match ----------

  /** One entity with a running turn, and one identity in it. */
  function OneTurn(key: Key, id: TurnId, d: DeliveryId): Version {
    Version(map[key := Raw(Turn(id, InProgress, None))], map[key := {d}])
  }

  /** The snapshot of that document. */
  function OneTurnSnapshot(revision: int, key: Key, id: TurnId, d: DeliveryId): Change {
    Snapshot(Some(revision), [Entity(key, Turn(id, InProgress, None))], [d], [Binding(key, d)])
  }

  lemma OneTurnIsHonest(revision: int, key: Key, id: TurnId, d: DeliveryId, server: Server)
    requires ValidRevision(Some(revision)) && server(1, revision) == OneTurn(key, id, d)
    ensures var change := OneTurnSnapshot(revision, key, id, d);
            Honest(change, 1, server) && Complete(change, 1, server)
  {
    assert Entity(key, Turn(id, InProgress, None)) in [Entity(key, Turn(id, InProgress, None))];
    assert key in OneTurn(key, id, d).texts && d in OneTurn(key, id, d).texts[key];
  }

  lemma OneTurnContent(revision: int, key: Key, id: TurnId, d: DeliveryId)
    ensures SnapshotContent(OneTurnSnapshot(revision, key, id, d))
            == Observed(map[key := id], map[id := Turn(id, InProgress, None)], {d}, map[d := id])
  {
    var entity, binding := Entity(key, Turn(id, InProgress, None)), Binding(key, d);
    var turn := BindTurn(EMPTY, key, entity.turn);
    assert [entity][..0] == [] && [binding][..0] == [];
    assert BindEntities(EMPTY, [entity]) == turn;
    assert Seen(turn, [d]) == turn.(seen := {d});
    assert BindDeliveries(turn.(seen := {d}), [binding]) == BindDelivery(turn.(seen := {d}), binding);
  }

  /** One told delta is an honest patch if it means the same. */
  lemma OneDeltaIsHonest(base: int, revision: int, delta: Delta, server: Server)
    requires MeansTheSame(server(1, base).doc, delta)
    requires server(1, revision).doc == Patch(server(1, base).doc, delta)
    ensures Honest(Patches(Some(base), Some(revision), [delta], [], []), 1, server)
    ensures Complete(Patches(Some(base), Some(revision), [delta], [], []), 1, server)
  {
    hide Patch, MeansTheSame;
    var doc, edits := server(1, base).doc, [Told(delta)];
    assert edits[..0] == [];
    assert EditAll(doc, edits[..0]) == doc && AllMeanTheSame(doc, edits[..0]) && DeltasOf(edits[..0]) == [];
    assert Turns(doc, server(1, revision).doc, [delta], edits);
  }

  lemma NoDeltaIsHonest(base: int, revision: int, server: Server)
    requires server(1, revision) == server(1, base)
    ensures Honest(Patches(Some(base), Some(revision), [], [], []), 1, server)
    ensures Complete(Patches(Some(base), Some(revision), [], [], []), 1, server)
  {
    assert Turns(server(1, base).doc, server(1, revision).doc, [], []);
  }

  lemma UnreadableIsHonest(server: Server)
    ensures Honest(Patches(None, None, [], [], []), 1, server)
    ensures Complete(Patches(None, None, [], [], []), 1, server)
  {
  }

  lemma OneDeltaContent(o: Observed, base: int, revision: int, delta: Delta)
    ensures PatchedContent(o, Patches(Some(base), Some(revision), [delta], [], [])) == ApplyDelta(o, delta)
  {
    hide ApplyDelta;
    assert [delta][..0] == [];
    assert ApplyDeltas(o, [delta]) == ApplyDelta(o, delta);
    assert Seen(ApplyDelta(o, delta), []) == ApplyDelta(o, delta);
  }

  function FirstTwo(first: Change, second: Change): seq<Event> {
    [Follow(1), Deliver(first, 1), Deliver(second, 1)]
  }

  lemma FirstTwoExec(first: Change, second: Change)
    ensures Exec(FirstTwo(first, second)) == Apply(Apply(BeginFollowing(INITIAL, 1), first, 1), second, 1)
  {
    hide Apply;
    var e := FirstTwo(first, second);
    assert [] + [e[0]] == [e[0]] && [e[0]] + [e[1]] == [e[0], e[1]] && [e[0], e[1]] + [e[2]] == e;
    ExecAppend([], e[0]);
    ExecAppend([e[0]], e[1]);
    ExecAppend([e[0], e[1]], e[2]);
  }

  /** A first snapshot and a patch on it, both honest, and what the replica has then. */
  lemma OneTurnThenDelta(key: Key, id: TurnId, d: DeliveryId, delta: Delta, server: Server)
    requires server(1, 5) == OneTurn(key, id, d) && MeansTheSame(server(1, 5).doc, delta)
    requires server(1, 6).doc == Patch(server(1, 5).doc, delta)
    ensures var events := FirstTwo(OneTurnSnapshot(5, key, id, d), Patches(Some(5), Some(6), [delta], [], []));
            && AllHonest(events, server) && AllComplete(events, server)
            && Exec(events) == State(Connected, Synchronized, NoInjection, 1, Some(6),
                 ApplyDelta(Observed(map[key := id], map[id := Turn(id, InProgress, None)], {d}, map[d := id]), delta))
  {
    hide Exec, Honest, Complete, SnapshotContent, PatchedContent, Patch, MeansTheSame, ApplyDelta;
    var first, second := OneTurnSnapshot(5, key, id, d), Patches(Some(5), Some(6), [delta], [], []);
    FirstTwoExec(first, second);
    OneTurnIsHonest(5, key, id, d, server);
    OneTurnContent(5, key, id, d);
    OneDeltaIsHonest(5, 6, delta, server);
    OneDeltaContent(SnapshotContent(first), 5, 6, delta);
  }

  /** An entity that is removed with an identity: the identity stays seen, and a snapshot of the same revision that does
      not list it any more is ignored. */
  lemma RemovedIdentityStaysSeen(key: Key, id: TurnId, d: DeliveryId, server: Server)
    requires server(1, 5) == OneTurn(key, id, d) && server(1, 6) == Version(map[], map[])
    ensures var events := FirstTwo(OneTurnSnapshot(5, key, id, d), Patches(Some(5), Some(6), [Remove(key)], [], []))
                          + [Deliver(Snapshot(Some(6), [], [], []), 1)];
            && AllHonest(events, server) && AllComplete(events, server)
            && Exec(events).Ready() && Exec(events).revision == Some(6)
            && d in Exec(events).observed.seen && !Held(server(1, 6).texts, d)
  {
    hide Exec, Honest, Complete, SnapshotContent, FirstTwo;
    assert server(1, 6).doc == Patch(server(1, 5).doc, Remove(key));
    OneTurnThenDelta(key, id, d, Remove(key), server);
    ExecAppend(FirstTwo(OneTurnSnapshot(5, key, id, d), Patches(Some(5), Some(6), [Remove(key)], [], [])),
               Deliver(Snapshot(Some(6), [], [], []), 1));
    NothingIsHonest(6, server);
  }

  lemma NothingIsHonest(revision: int, server: Server)
    requires server(1, revision) == Version(map[], map[])
    ensures Honest(Snapshot(Some(revision), [], [], []), 1, server)
    ensures Complete(Snapshot(Some(revision), [], [], []), 1, server)
  {
  }

  /** An entity whose turn gets another identity keeps its text, and the replica loses the binding. */
  lemma RenamedTurnLosesBinding(key: Key, a: TurnId, b: TurnId, d: DeliveryId, server: Server)
    requires a != b && server(1, 5) == OneTurn(key, a, d) && server(1, 6) == OneTurn(key, b, d)
    ensures var events := FirstTwo(OneTurnSnapshot(5, key, a, d),
                                   Patches(Some(5), Some(6), [Bind(key, b)], [], []));
            && AllHonest(events, server) && AllComplete(events, server)
            && Exec(events) == State(Connected, Synchronized, NoInjection, 1, Some(6),
                                     Observed(map[key := b], map[b := Turn(b, InProgress, None)], {d}, map[]))
            && HeldBy(server(1, 6), d, b)
  {
    hide Exec, AllHonest, AllComplete, FirstTwo;
    assert server(1, 6).doc == Patch(server(1, 5).doc, Bind(key, b));
    OneTurnThenDelta(key, a, d, Bind(key, b), server);
    RenamedContent(key, a, b, d);
    assert key in server(1, 6).doc && key in server(1, 6).texts && d in server(1, 6).texts[key];
  }

  lemma RenamedContent(key: Key, a: TurnId, b: TurnId, d: DeliveryId)
    requires a != b
    ensures ApplyDelta(Observed(map[key := a], map[a := Turn(a, InProgress, None)], {d}, map[d := a]), Bind(key, b))
            == Observed(map[key := b], map[b := Turn(b, InProgress, None)], {d}, map[])
  {
  }
}
