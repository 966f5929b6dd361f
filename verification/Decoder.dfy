/** Finding delivery identities in a decoded Desktop change. */
module Decoder {
  import opened Types
  import R = Replica
  import Agreement = ReplicaAgreement

  datatype Json =
    | Null
    | Boolean(truth: bool)
    | Number(value: real)
    | Text(text: string)
    | Array(items: seq<Json>)
    | Object(fields: seq<Field>)

  datatype Field = Field(key: string, value: Json)

  const MESSAGE_ID := "clientUserMessageId"

  predicate IsIdentity(field: Field) {
    field.key == MESSAGE_ID && field.value.Text?
  }

  // ---------- the definition ----------

  /** Every text stored under the message identity key, anywhere in the tree. */
  function Ids(value: Json): set<string>
    decreases value, 1
  {
    match value
    case Array(items) => AllIds(items)
    case Object(fields) => FieldIds(fields)
    case _ => {}
  }

  function AllIds(items: seq<Json>): set<string>
    decreases items, 0
  {
    if items == [] then {} else Ids(items[0]) + AllIds(items[1..])
  }

  function FieldIds(fields: seq<Field>): set<string>
    decreases fields, 0
  {
    if fields == [] then {}
    else (if IsIdentity(fields[0]) then {fields[0].value.text} else Ids(fields[0].value)) + FieldIds(fields[1..])
  }

  lemma {:induction false} AllIdsAppend(items: seq<Json>, more: seq<Json>)
    ensures AllIds(items + more) == AllIds(items) + AllIds(more)
  {
    if items == [] {
      assert items + more == more;
    } else {
      assert (items + more)[1..] == items[1..] + more;
      AllIdsAppend(items[1..], more);
    }
  }

  // ---------- the definition, by paths ----------

  /** One step down a tree: to an item of an array, or to a field of an object. */
  datatype Step = Item(index: nat) | Member(position: nat)

  /** The node a path leads to, if it leads anywhere. */
  function At(value: Json, path: seq<Step>): Option<Json> {
    if path == [] then Some(value)
    else
      match path[0]
      case Item(i) => if value.Array? && i < |value.items| then At(value.items[i], path[1..]) else None
      case Member(i) => if value.Object? && i < |value.fields| then At(value.fields[i].value, path[1..]) else None
  }

  /** Some object that a path leads to has this text as its message identity. */
  ghost predicate Carries(value: Json, id: string) {
    exists path: seq<Step>, i: nat :: CarriesAt(value, path, i, id)
  }

  predicate CarriesAt(value: Json, path: seq<Step>, i: nat, id: string) {
    At(value, path).Some? && HasIdentity(At(value, path).value, i, id)
  }

  predicate HasIdentity(node: Json, i: nat, id: string) {
    node.Object? && i < |node.fields| && node.fields[i] == Field("clientUserMessageId", Text(id))
  }

  /** The identities of a tree are exactly those that some path leads to. */
  lemma {:induction false} IdsAreCarried(value: Json, id: string)
    ensures id in Ids(value) <==> Carries(value, id)
    decreases value, 1
  {
    match value
    case Array(items) => ItemIdsAreCarried(value, items, 0, id);
    case Object(fields) => MemberIdsAreCarried(value, fields, 0, id);
    case _ =>
  }

  /** A path that carries goes on into one of the children. */
  lemma StepsDown(value: Json, path: seq<Step>, i: nat, id: string)
    requires CarriesAt(value, path, i, id) && path != []
    ensures path[0].Item? ==> value.Array? && path[0].index < |value.items|
                              && CarriesAt(value.items[path[0].index], path[1..], i, id)
    ensures path[0].Member? ==> value.Object? && path[0].position < |value.fields|
                                && CarriesAt(value.fields[path[0].position].value, path[1..], i, id)
  {
  }

  lemma StepsUp(value: Json, step: Step, child: Json, id: string)
    requires Carries(child, id) && At(value, [step]) == Some(child)
    ensures Carries(value, id)
  {
    var path: seq<Step>, i: nat :| CarriesAt(child, path, i, id);
    assert ([step] + path)[1..] == path && [step][1..] == [];
    assert CarriesAt(value, [step] + path, i, id);
  }

  lemma {:induction false} ItemIdsAreCarried(value: Json, items: seq<Json>, k: nat, id: string)
    requires value.Array? && k <= |value.items| && items == value.items[k..]
    ensures id in AllIds(items) <==> exists i :: k <= i < |value.items| && Carries(value.items[i], id)
    ensures k == 0 ==> (id in AllIds(items) <==> Carries(value, id))
    decreases value, 0, |items|
  {
    if items != [] {
      IdsAreCarried(items[0], id);
      ItemIdsAreCarried(value, items[1..], k + 1, id);
    }
    if k == 0 { ChildrenCarry(value, id); }
  }

  lemma ChildrenCarry(value: Json, id: string)
    requires value.Array?
    ensures Carries(value, id) <==> exists i :: 0 <= i < |value.items| && Carries(value.items[i], id)
  {
    if Carries(value, id) {
      var path: seq<Step>, i: nat :| CarriesAt(value, path, i, id);
      assert path != [];
      StepsDown(value, path, i, id);
      assert Carries(value.items[path[0].index], id);
    }
    if exists i :: 0 <= i < |value.items| && Carries(value.items[i], id) {
      var i :| 0 <= i < |value.items| && Carries(value.items[i], id);
      assert [Item(i)][1..] == [];
      assert At(value, [Item(i)]) == Some(value.items[i]);
      StepsUp(value, Item(i), value.items[i], id);
    }
  }

  /** A field carries an identity as its own text, or somewhere below it. */
  ghost predicate FieldCarries(field: Field, id: string) {
    field == Field("clientUserMessageId", Text(id)) || Carries(field.value, id)
  }

  lemma {:induction false} MemberIdsAreCarried(value: Json, fields: seq<Field>, k: nat, id: string)
    requires value.Object? && k <= |value.fields| && fields == value.fields[k..]
    ensures id in FieldIds(fields) <==> exists i :: k <= i < |value.fields| && FieldCarries(value.fields[i], id)
    ensures k == 0 ==> (id in FieldIds(fields) <==> Carries(value, id))
    decreases value, 0, |fields|
  {
    if fields != [] {
      IdsAreCarried(fields[0].value, id);
      MemberIdsAreCarried(value, fields[1..], k + 1, id);
    }
    if k == 0 { FieldsCarry(value, id); }
  }

  lemma FieldsCarry(value: Json, id: string)
    requires value.Object?
    ensures Carries(value, id) <==> exists i :: 0 <= i < |value.fields| && FieldCarries(value.fields[i], id)
  {
    if Carries(value, id) {
      var path: seq<Step>, i: nat :| CarriesAt(value, path, i, id);
      if path == [] {
        assert FieldCarries(value.fields[i], id);
      } else {
        StepsDown(value, path, i, id);
        assert FieldCarries(value.fields[path[0].position], id);
      }
    }
    if exists i :: 0 <= i < |value.fields| && FieldCarries(value.fields[i], id) {
      var i :| 0 <= i < |value.fields| && FieldCarries(value.fields[i], id);
      if value.fields[i] == Field("clientUserMessageId", Text(id)) {
        assert CarriesAt(value, [], i, id);
      } else {
        assert [Member(i)][1..] == [];
        assert At(value, [Member(i)]) == Some(value.fields[i].value);
        StepsUp(value, Member(i), value.fields[i].value, id);
      }
    }
  }

  // ---------- the size of what is left to visit ----------

  function Size(value: Json): nat
    decreases value, 1
  {
    match value
    case Array(items) => 1 + TotalSize(items)
    case Object(fields) => 1 + FieldsSize(fields)
    case _ => 1
  }

  function TotalSize(items: seq<Json>): nat
    decreases items, 0
  {
    if items == [] then 0 else Size(items[0]) + TotalSize(items[1..])
  }

  function FieldsSize(fields: seq<Field>): nat
    decreases fields, 0
  {
    if fields == [] then 0 else Size(fields[0].value) + FieldsSize(fields[1..])
  }

  lemma {:induction false} TotalSizeAppend(items: seq<Json>, more: seq<Json>)
    ensures TotalSize(items + more) == TotalSize(items) + TotalSize(more)
  {
    if items == [] {
      assert items + more == more;
    } else {
      assert (items + more)[1..] == items[1..] + more;
      TotalSizeAppend(items[1..], more);
    }
  }

  ghost predicate NoRepeats(found: seq<string>) {
    forall i, j :: 0 <= i < j < |found| ==> found[i] != found[j]
  }

  function Elements(found: seq<string>): set<string> {
    set id | id in found
  }

  /** A worklist instead of recursion: it ends on every tree and finds exactly what the definition finds, once each. */
  method DeliveryIds(value: Json) returns (found: seq<string>)
    ensures Elements(found) == Ids(value)
    ensures NoRepeats(found)
  {
    found := [];
    var pending := [value];
    assert [value][1..] == [];
    while pending != []
      invariant Elements(found) + AllIds(pending) == Ids(value)
      invariant NoRepeats(found)
      decreases TotalSize(pending)
    {
      var next := pending[|pending| - 1];
      var rest := pending[..|pending| - 1];
      assert pending == rest + [next] && [next][1..] == [];
      AllIdsAppend(rest, [next]);
      TotalSizeAppend(rest, [next]);
      pending := rest;
      if next.Array? {
        AllIdsAppend(rest, next.items);
        TotalSizeAppend(rest, next.items);
        pending := rest + next.items;
      } else if next.Object? {
        found, pending := VisitFields(next.fields, found, pending);
      }
    }
  }

  /** One object of the worklist: identities are collected, every other child is left to visit. */
  method VisitFields(fields: seq<Field>, found: seq<string>, pending: seq<Json>)
    returns (collected: seq<string>, left: seq<Json>)
    requires NoRepeats(found)
    ensures Elements(collected) + AllIds(left) == Elements(found) + AllIds(pending) + FieldIds(fields)
    ensures NoRepeats(collected)
    ensures TotalSize(left) <= TotalSize(pending) + FieldsSize(fields)
  {
    collected, left := found, pending;
    assert fields[0..] == fields;
    for i := 0 to |fields|
      invariant Elements(collected) + AllIds(left) + FieldIds(fields[i..])
                == Elements(found) + AllIds(pending) + FieldIds(fields)
      invariant NoRepeats(collected)
      invariant TotalSize(left) + FieldsSize(fields[i..]) <= TotalSize(pending) + FieldsSize(fields)
    {
      var field := fields[i];
      assert fields[i..][0] == field && fields[i..][1..] == fields[i + 1..];
      if IsIdentity(field) {
        if field.value.text !in collected {
          assert Elements(collected + [field.value.text]) == Elements(collected) + {field.value.text};
          collected := collected + [field.value.text];
        }
      } else {
        AllIdsAppend(left, [field.value]);
        TotalSizeAppend(left, [field.value]);
        assert [field.value][1..] == [];
        left := left + [field.value];
      }
    }
  }

  // ---------- bindings ----------

  datatype Binding = Binding(key: string, id: string)

  lemma {:induction false} EntityIdsListed(entities: seq<Field>, i: nat)
    requires i < |entities|
    ensures Ids(entities[i].value) <= FieldIds(entities)
  {
    if i > 0 { EntityIdsListed(entities[1..], i - 1); }
  }

  ghost predicate AllListed(bindings: seq<Binding>, ids: seq<string>) {
    forall b :: b in bindings ==> b.id in ids
  }

  /** Each entity's identities are bound to its key. */
  method SnapshotBindings(entities: seq<Field>) returns (bindings: seq<Binding>)
    ensures forall b :: b in bindings <==>
              exists i :: 0 <= i < |entities| && entities[i].key == b.key && b.id in Ids(entities[i].value)
  {
    bindings := [];
    for i := 0 to |entities|
      invariant forall b :: b in bindings <==>
                  exists k :: 0 <= k < i && entities[k].key == b.key && b.id in Ids(entities[k].value)
    {
      var ids := DeliveryIds(entities[i].value);
      var mine := seq(|ids|, k requires 0 <= k < |ids| => Binding(entities[i].key, ids[k]));
      forall b ensures b in mine <==> b.key == entities[i].key && b.id in Ids(entities[i].value) {
        if b.key == entities[i].key && b.id in Ids(entities[i].value) {
          assert b.id in Elements(ids);
          var k :| 0 <= k < |ids| && ids[k] == b.id;
          assert mine[k] == b;
        }
        if b in mine { var k :| 0 <= k < |mine| && mine[k] == b; assert ids[k] in Elements(ids); }
      }
      bindings := bindings + mine;
    }
  }

  /** The identities and bindings read from a snapshot: everything bound is also listed. */
  method ReadSnapshot(entities: seq<Field>) returns (ids: seq<string>, bindings: seq<Binding>)
    ensures Elements(ids) == FieldIds(entities)
    ensures AllListed(bindings, ids)
    ensures forall b :: b in bindings <==>
              exists i :: 0 <= i < |entities| && entities[i].key == b.key && b.id in Ids(entities[i].value)
  {
    ids := DeliveryIds(Object(entities));
    bindings := SnapshotBindings(entities);
    forall b | b in bindings ensures b.id in ids {
      var i :| 0 <= i < |entities| && entities[i].key == b.key && b.id in Ids(entities[i].value);
      EntityIdsListed(entities, i);
      assert b.id in Elements(ids);
    }
  }

  function Lookup(fields: seq<Field>, key: string): Json {
    if fields == [] then Null
    else if fields[|fields| - 1].key == key then fields[|fields| - 1].value
    else Lookup(fields[..|fields| - 1], key)
  }

  function PathOf(patch: Json): seq<Json> {
    if patch.Object? && Lookup(patch.fields, "path").Array? then Lookup(patch.fields, "path").items else []
  }

  function ValueOf(patch: Json): Json {
    if patch.Object? then Lookup(patch.fields, "value") else Null
  }

  predicate IsTurnEntityPath(path: seq<Json>) {
    exists i :: 0 <= i < |path| - 2
      && path[i] == Text("turnHistory") && path[i + 1] == Text("history") && path[i + 2] == Text("entitiesByKey")
  }

  function IndexOf(path: seq<Json>, part: Json): Option<nat> {
    if part !in path then None
    else if path[0] == part then Some(0)
    else match IndexOf(path[1..], part)
         case Some(i) => Some(i + 1)
         case None => None
  }

  /** The key that follows the first entity marker, when it is a text. */
  function EntityKey(path: seq<Json>): Option<string> {
    match IndexOf(path, Text("entitiesByKey"))
    case Some(i) => if i + 1 < |path| && path[i + 1].Text? then Some(path[i + 1].text) else None
    case None => None
  }

  function PatchIds(patch: Json): set<string> {
    var path, value := PathOf(patch), ValueOf(patch);
    if !patch.Object? || !IsTurnEntityPath(path) then {}
    else (if path[|path| - 1] == Text(MESSAGE_ID) && value.Text? then {value.text} else {}) + Ids(value)
  }

  /** A patch carries an identity exactly if it is an object whose path goes through the turn entities, and either its
      path ends in the message identity and its value is that text, or its value carries the identity. */
  lemma PatchCarriesExactly(patch: Json, id: string)
    ensures id in PatchIds(patch)
            <==> && patch.Object? && IsTurnEntityPath(PathOf(patch))
                 && (|| (PathOf(patch)[|PathOf(patch)| - 1] == Text("clientUserMessageId")
                         && ValueOf(patch) == Text(id))
                     || Carries(ValueOf(patch), id))
  {
    IdsAreCarried(ValueOf(patch), id);
  }

  /** The first entity marker of the path is here, and this text follows it. */
  predicate MarksKey(path: seq<Json>, i: nat, key: string) {
    && i + 1 < |path| && path[i] == Text("entitiesByKey") && path[i + 1] == Text(key)
    && Text("entitiesByKey") !in path[..i]
  }

  /** The key of a patch is the text after the first entity marker of its path. */
  lemma KeyFollowsFirstMarker(path: seq<Json>, key: string)
    ensures EntityKey(path) == Some(key)
            <==> exists i: nat :: MarksKey(path, i, key)
  {
    IndexIsFirst(path, Text("entitiesByKey"));
    if EntityKey(path) == Some(key) { assert MarksKey(path, IndexOf(path, Text("entitiesByKey")).value, key); }
    if exists i: nat :: MarksKey(path, i, key) {
      var i: nat :| MarksKey(path, i, key);
      FirstIndex(path, Text("entitiesByKey"), i);
    }
  }

  lemma {:induction false} IndexIsFirst(path: seq<Json>, part: Json)
    ensures IndexOf(path, part).None? ==> part !in path
    ensures IndexOf(path, part).Some? ==>
              var i := IndexOf(path, part).value;
              i < |path| && path[i] == part && part !in path[..i]
  {
    if part in path && path[0] != part {
      IndexIsFirst(path[1..], part);
      var k := IndexOf(path[1..], part).value;
      assert path[..k + 1] == [path[0]] + path[1..][..k];
    }
  }

  lemma FirstIndex(path: seq<Json>, part: Json, i: nat)
    requires i < |path| && path[i] == part && part !in path[..i]
    ensures IndexOf(path, part) == Some(i)
  {
    IndexIsFirst(path, part);
    hide IndexOf;
    var k := IndexOf(path, part).value;
    assert forall m :: 0 <= m < i ==> path[m] == path[..i][m];
    assert forall m :: 0 <= m < k ==> path[m] == path[..k][m];
  }

  method PatchDeliveryIds(patch: Json) returns (ids: seq<string>)
    ensures Elements(ids) == PatchIds(patch)
  {
    if !patch.Object? { return []; }
    var path, value := PathOf(patch), ValueOf(patch);
    if !IsTurnEntityPath(path) { return []; }
    var inside := DeliveryIds(value);
    var direct := if path[|path| - 1] == Text(MESSAGE_ID) && value.Text? then [value.text] else [];
    assert Elements(direct + inside) == Elements(direct) + Elements(inside);
    ids := direct + inside;
  }

  /** The patch carries this identity under this entity key. */
  predicate BindsTo(patch: Json, binding: Binding) {
    EntityKey(PathOf(patch)) == Some(binding.key) && binding.id in PatchIds(patch)
  }

  method PatchDeliveryBindings(patch: Json) returns (bindings: seq<Binding>)
    ensures forall b :: b in bindings <==> BindsTo(patch, b)
  {
    var path := PathOf(patch);
    if !IsTurnEntityPath(path) { return []; }
    var key := EntityKey(path);
    if key.None? { return []; }
    var ids := PatchDeliveryIds(patch);
    bindings := seq(|ids|, k requires 0 <= k < |ids| => Binding(key.value, ids[k]));
    forall b: Binding | b.key == key.value && b.id in PatchIds(patch) ensures b in bindings {
      assert b.id in Elements(ids);
      var k :| 0 <= k < |ids| && ids[k] == b.id;
      assert bindings[k] == b;
    }
    forall b | b in bindings ensures b.id in PatchIds(patch) {
      var k :| 0 <= k < |bindings| && bindings[k] == b;
      assert ids[k] in Elements(ids);
    }
  }

  method PatchesIds(patches: seq<Json>) returns (ids: seq<string>)
    ensures forall id :: id in ids <==> exists i :: 0 <= i < |patches| && id in PatchIds(patches[i])
  {
    ids := [];
    for i := 0 to |patches|
      invariant forall id :: id in ids <==> exists k :: 0 <= k < i && id in PatchIds(patches[k])
    {
      var mine := PatchDeliveryIds(patches[i]);
      assert forall id :: id in mine <==> id in Elements(mine);
      ids := ids + mine;
    }
  }

  method PatchesBindings(patches: seq<Json>) returns (bindings: seq<Binding>)
    ensures forall b :: b in bindings <==> exists i :: 0 <= i < |patches| && BindsTo(patches[i], b)
  {
    hide BindsTo;
    bindings := [];
    for i := 0 to |patches|
      invariant forall b :: b in bindings <==> exists k :: 0 <= k < i && BindsTo(patches[k], b)
    {
      var bound := PatchDeliveryBindings(patches[i]);
      bindings := bindings + bound;
    }
  }

  /** The identities and bindings read from a list of patches: everything bound is also listed. */
  method ReadPatches(patches: seq<Json>) returns (ids: seq<string>, bindings: seq<Binding>)
    ensures forall id :: id in ids <==> exists i :: 0 <= i < |patches| && id in PatchIds(patches[i])
    ensures forall b :: b in bindings <==> exists i :: 0 <= i < |patches| && BindsTo(patches[i], b)
    ensures AllListed(bindings, ids)
  {
    ids := PatchesIds(patches);
    bindings := PatchesBindings(patches);
    forall b | b in bindings ensures b.id in ids {
      var i :| 0 <= i < |patches| && BindsTo(patches[i], b);
    }
  }

  // ---------- what the replica may rely on ----------

  function Deliveries(ids: seq<string>, name: string -> DeliveryId): seq<DeliveryId> {
    seq(|ids|, i requires 0 <= i < |ids| => name(ids[i]))
  }

  function Bindings(bindings: seq<Binding>, key: string -> R.Key, name: string -> DeliveryId): seq<R.Binding> {
    seq(|bindings|, i requires 0 <= i < |bindings| => R.Binding(key(bindings[i].key), name(bindings[i].id)))
  }

  /** A change built from what was read lists every identity it binds. */
  lemma ReadChangesAreListed(
    ids: seq<string>, bindings: seq<Binding>, key: string -> R.Key, name: string -> DeliveryId, change: R.Change)
    requires AllListed(bindings, ids)
    requires change.deliveries == Deliveries(ids, name) && change.bindings == Bindings(bindings, key, name)
    ensures Agreement.Listed(change)
  {
    forall b | b in change.bindings ensures b.delivery in change.deliveries {
      var i :| 0 <= i < |bindings| && change.bindings[i] == b;
      assert bindings[i] in bindings;
      var k :| 0 <= k < |ids| && ids[k] == bindings[i].id;
      assert change.deliveries[k] == b.delivery;
    }
  }
}
