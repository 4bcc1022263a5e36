/** What the two services do together: the primary writes its `items` collection and
    publishes one event per successful write; the consumer applies every event it reads
    to `consumed-items`. The replica row under an item's id then holds the item's fields,
    as long as every event is delivered. */
module Replication {
  import opened Wrappers
  import opened JsonValues
  import opened Items
  import opened ObjectIds
  import opened ItemStore
  import opened ItemRepositories
  import opened ItemEvents
  import opened ProducerKafka
  import opened PrimaryUseCases
  import opened ConsumedItems
  import opened ItemEventHandler
  import opened ConsumerKafka
  import Text

  /** The fields of the primary's item with id `key`, if there is one. */
  function PrimaryFields(p: ItemState, key: string): Option<ItemFields> {
    match FindById(p, key)
    case None => None
    case Some(d) => Some(d.fields)
  }

  /** The fields of the replica row keyed by `key`, if there is one. */
  function ReplicaFields(s: ReplicaState, key: string): Option<ItemFields> {
    match FindByKey(s, key)
    case None => None
    case Some(r) => Some(r.fields)
  }

  /** The replica holds exactly the primary's items, field for field, under their ids. */
  ghost predicate Mirrors(p: ItemState, s: ReplicaState) {
    forall key :: ReplicaFields(s, key) == PrimaryFields(p, key)
  }

  /** What the consumer does with the message a successful write publishes. */
  function Consumed(s: ReplicaState, t: EventType, e: ItemEntity, now: string): (ReplicaState, MessageOutcome) {
    ProcessMessage(s, MessageFor(PublishedEvent(t, e.id, EventData(e), now)))
  }

  /** No key of `f` is missing where the row's value is present. */
  predicate NoNewGaps(f: ItemFields, row: ItemFields) {
    && (f.description.Undefined? ==> row.description.Undefined?)
    && (f.price.Undefined? ==> row.price.Undefined?)
    && (f.quantity.Undefined? ==> row.quantity.Undefined?)
  }

  /** The entries `{ name, description, price, quantity }` carries for stored fields. */
  lemma ItemDataEntries(f: ItemFields)
    ensures var data := ItemData(f);
      && Get(data, "name") == Some(JString(f.name))
      && Get(data, "description") == (match f.description
           case Undefined => None case Null => Some(JNull) case Defined(x) => Some(JString(x)))
      && Get(data, "price") == (match f.price
           case Undefined => None case Null => Some(JNull) case Defined(x) => Some(JNumber(x)))
      && Get(data, "quantity") == (match f.quantity
           case Undefined => None case Null => Some(JNull) case Defined(x) => Some(JNumber(x)))
  {
  }

  /** The published event crosses the topic unchanged and reaches the handler. */
  lemma {:induction false} ConsumedIsApplied(s: ReplicaState, t: EventType, e: ItemEntity, now: string)
    ensures var event := ItemEvent(t, e.id, Some(EventData(e)), now);
      && Consumed(s, t, e, now).0 == Applied(s, event).0
      && (Consumed(s, t, e, now).1 == Handled <==> Applied(s, event).1.Pass?)
  {
    PublishedEventValid(t, e.id, EventData(e), now);
  }

  /** The update the consumer builds from stored fields, cast and trimmed. */
  function StoredUpdate(f: ItemFields, ts: string): ReplicaUpdate {
    ReplicaUpdate(Defined(f.name), f.description, f.price, f.quantity, DateOf(ts))
  }

  /** Every path of stored fields casts, and to itself. */
  lemma {:induction false} CastOfStored(f: ItemFields, ts: string)
    ensures CastUpdate(UpdateOf(ItemData(f), ts)) == Ok(StoredUpdate(f, ts))
  {
    ItemDataEntries(f);
  }

  /** Trimming changes nothing in fields that are already trimmed, and the consumer's
      validators accept what the primary's accepted. */
  lemma {:induction false} TrimOfStored(f: ItemFields, ts: string, rowExists: bool)
    requires Stored(f)
    ensures TrimUpdate(StoredUpdate(f, ts)) == StoredUpdate(f, ts)
    ensures UpdateAccepted(StoredUpdate(f, ts), rowExists)
  {
    Text.TrimFixedIffTrimmed(f.name);
    assert Text.Trim(f.name) == f.name;
    if f.description.Defined? {
      Text.TrimFixedIffTrimmed(f.description.value);
    }
    assert TrimDescription(f.description) == f.description;
  }

  /** Written over a row with no value where the fields have none, or as a new row, the
      stored fields come out as they are. */
  lemma StoredFieldsWritten(row: ItemFields, f: ItemFields, ts: string)
    requires Stored(f)
    ensures NoNewGaps(f, row) ==> Overwritten(row, StoredUpdate(f, ts)) == f
    ensures InsertedFields(StoredUpdate(f, ts)) == f
  {
  }

  /** An update that casts to stored fields is taken by the consumer as it is. */
  lemma {:induction false} UpsertStored(s: ReplicaState, key: string, f: ItemFields, raw: RawUpdate, ts: string)
    requires ConsumedItems.WellFormed(s) && Stored(f) && key != ""
    requires CastUpdate(raw) == Ok(StoredUpdate(f, ts))
    requires ReplicaFields(s, key).Some? ==> NoNewGaps(f, ReplicaFields(s, key).value)
    ensures Upserted(s, key, raw).1.Ok?
    ensures ReplicaFields(Upserted(s, key, raw).0, key) == Some(f)
  {
    var u := StoredUpdate(f, ts);
    assert TrimUpdate(CastUpdate(raw).value) == u && UpdateAccepted(u, FindByKey(s, key).Some?) by {
      TrimOfStored(f, ts, FindByKey(s, key).Some?);
    }
    var (t, r) := Upserted(s, key, raw);
    assert r.Ok? && FindByKey(t, key) == Some(r.value) by {
      UpsertedSpec(s, key, raw);
    }
    if FindByKey(s, key).Some? {
      var before := FindByKey(s, key).value;
      assert r.value.fields == Overwritten(before.fields, u) by {
        UpsertedSpec(s, key, raw);
      }
      StoredFieldsWritten(before.fields, f, ts);
    } else {
      assert r.value.fields == InsertedFields(u) by {
        UpsertedSpec(s, key, raw);
      }
      StoredFieldsWritten(f, f, ts);
    }
  }

  /** Fields the primary stores, sent as an event's data, are taken by the consumer as they are. */
  lemma {:induction false} SyncStored(s: ReplicaState, key: string, f: ItemFields, t: EventType, ts: string)
    requires ConsumedItems.WellFormed(s) && Stored(f) && t != ItemDeleted && key != ""
    requires ReplicaFields(s, key).Some? ==> NoNewGaps(f, ReplicaFields(s, key).value)
    ensures Applied(s, ItemEvent(t, key, Some(ItemData(f)), ts)).1 == Pass
    ensures ReplicaFields(Applied(s, ItemEvent(t, key, Some(ItemData(f)), ts)).0, key) == Some(f)
  {
    var raw := UpdateOf(ItemData(f), ts);
    CastOfStored(f, ts);
    UpsertStored(s, key, f, raw, ts);
  }

  /** The empty collections mirror each other. */
  lemma EmptyMirrors()
    ensures Mirrors(ItemStore.Empty, EmptyReplica)
  {
    forall key ensures ReplicaFields(EmptyReplica, key) == PrimaryFields(ItemStore.Empty, key) {
    }
  }

  /** Mirroring is restored when the touched key agrees and every other key is untouched. */
  lemma MirrorsRestored(p: ItemState, s: ReplicaState, p': ItemState, s': ReplicaState, key: string)
    requires Mirrors(p, s)
    requires ReplicaFields(s', key) == PrimaryFields(p', key)
    requires forall other :: other != key ==> ReplicaFields(s', other) == ReplicaFields(s, other)
    requires forall other :: other != key ==> PrimaryFields(p', other) == PrimaryFields(p, other)
    ensures Mirrors(p', s')
  {
    forall other ensures ReplicaFields(s', other) == PrimaryFields(p', other) {
      if other != key {
        assert ReplicaFields(s, other) == PrimaryFields(p, other);
      }
    }
  }

  /** The consumer takes the fields of a stored item, sent in its event, as they are, and
      touches no other key. */
  lemma ConsumedStored(s: ReplicaState, t: EventType, e: ItemEntity, now: string)
    requires ConsumedItems.WellFormed(s) && Stored(EntityFields(e)) && t != ItemDeleted && e.id != ""
    requires ReplicaFields(s, e.id).Some? ==> NoNewGaps(EntityFields(e), ReplicaFields(s, e.id).value)
    ensures Consumed(s, t, e, now).1 == Handled
    ensures ReplicaFields(Consumed(s, t, e, now).0, e.id) == Some(EntityFields(e))
    ensures forall other :: other != e.id ==> ReplicaFields(Consumed(s, t, e, now).0, other) == ReplicaFields(s, other)
  {
    var event := ItemEvent(t, e.id, Some(EventData(e)), now);
    ConsumedIsApplied(s, t, e, now);
    SyncStored(s, e.id, EntityFields(e), t, now);
    forall other | other != e.id
      ensures ReplicaFields(Applied(s, event).0, other) == ReplicaFields(s, other)
    {
      AppliedKeepsOthers(s, event, other);
    }
  }

  /** A successful create adds one stored item under a fresh id and touches no other id. */
  lemma CreatedItem(p: ItemState, itemData: Json)
    requires ItemStore.WellFormed(p) && CreateOutcome(p, itemData).Ok?
    ensures var e := CreateOutcome(p, itemData).value;
      var p' := Created(p, itemData).0;
      && Stored(EntityFields(e))
      && PrimaryFields(p, e.id) == None
      && PrimaryFields(p', e.id) == Some(EntityFields(e))
      && forall other :: other != e.id ==> PrimaryFields(p', other) == PrimaryFields(p, other)
  {
    CreatedEntity(p, itemData);
    var e := CreateOutcome(p, itemData).value;
    forall other | other != e.id
      ensures PrimaryFields(Created(p, itemData).0, other) == PrimaryFields(p, other)
    {
      SavedKeepsOthers(p, ParseItem(itemData).value, other);
    }
  }

  lemma CreatedEntity(p: ItemState, itemData: Json)
    requires ItemStore.WellFormed(p) && CreateOutcome(p, itemData).Ok?
    ensures var e := CreateOutcome(p, itemData).value;
      var p' := Created(p, itemData).0;
      && Stored(EntityFields(e))
      && PrimaryFields(p, e.id) == None
      && PrimaryFields(p', e.id) == Some(EntityFields(e))
  {
    var f := ParseItem(itemData).value;
    var (p', d) := Saved(p, f);
    var e := CreateOutcome(p, itemData).value;
    assert e == ToDomainEntity(d.value);
    assert && d.value in p'.docs && ItemStore.WellFormed(p')
           && FindById(p, e.id).None? && FindById(p', e.id) == Some(d.value) by {
      SavedSpec(p, f);
    }
    assert DocOk(d.value, p');
  }

  /** A successful update leaves one stored item under the same id, with no value gone
      missing, and touches no other id. */
  lemma UpdatedItem(p: ItemState, id: string, updateData: Json)
    requires ItemStore.WellFormed(p) && UpdateOutcome(p, id, updateData).Ok?
    ensures var e := UpdateOutcome(p, id, updateData).value;
      var p' := Updated(p, id, updateData).0;
      && e.id == id
      && Stored(EntityFields(e))
      && PrimaryFields(p, id).Some? && NoNewGaps(EntityFields(e), PrimaryFields(p, id).value)
      && PrimaryFields(p', id) == Some(EntityFields(e))
      && forall other :: other != id ==> PrimaryFields(p', other) == PrimaryFields(p, other)
  {
    UpdatedEntity(p, id, updateData);
    forall other | other != id
      ensures PrimaryFields(Updated(p, id, updateData).0, other) == PrimaryFields(p, other)
    {
      UpdatedByIdKeepsOthers(p, id, ParseItemPatch(updateData).value, other);
    }
  }

  lemma UpdatedEntity(p: ItemState, id: string, updateData: Json)
    requires ItemStore.WellFormed(p) && UpdateOutcome(p, id, updateData).Ok?
    ensures var e := UpdateOutcome(p, id, updateData).value;
      var p' := Updated(p, id, updateData).0;
      && e.id == id
      && Stored(EntityFields(e))
      && PrimaryFields(p, id).Some? && NoNewGaps(EntityFields(e), PrimaryFields(p, id).value)
      && PrimaryFields(p', id) == Some(EntityFields(e))
  {
    var patch := ParseItemPatch(updateData).value;
    var (p', d) := UpdatedById(p, id, patch);
    UpdatedByIdSpec(p, id, patch);
    assert d.value.value in p'.docs;
  }

  /** A create, its event consumed, keeps the replica a mirror; a failed create publishes
      nothing and changes nothing. */
  lemma CreateMirrored(p: ItemState, s: ReplicaState, itemData: Json, now: string)
    requires ItemStore.WellFormed(p) && ConsumedItems.WellFormed(s) && Mirrors(p, s)
    ensures var r := CreateOutcome(p, itemData);
      && (r.Err? ==> Created(p, itemData).0 == p)
      && (r.Ok? ==>
            && Consumed(s, ItemCreated, r.value, now).1 == Handled
            && Mirrors(Created(p, itemData).0, Consumed(s, ItemCreated, r.value, now).0))
  {
    var r := CreateOutcome(p, itemData);
    if r.Ok? {
      CreatedItem(p, itemData);
      assert ReplicaFields(s, r.value.id) == None;
      ConsumedStored(s, ItemCreated, r.value, now);
      MirrorsRestored(p, s, Created(p, itemData).0, Consumed(s, ItemCreated, r.value, now).0, r.value.id);
    } else if ParseItem(itemData).Ok? {
      SavedSpec(p, ParseItem(itemData).value);
    }
  }

  /** An update, its event consumed, keeps the replica a mirror; a failed update publishes
      nothing and changes nothing. */
  lemma UpdateMirrored(p: ItemState, s: ReplicaState, id: string, updateData: Json, now: string)
    requires ItemStore.WellFormed(p) && ConsumedItems.WellFormed(s) && Mirrors(p, s)
    ensures var r := UpdateOutcome(p, id, updateData);
      && (r.Err? ==> Updated(p, id, updateData).0 == p)
      && (r.Ok? ==>
            && Consumed(s, ItemUpdated, r.value, now).1 == Handled
            && Mirrors(Updated(p, id, updateData).0, Consumed(s, ItemUpdated, r.value, now).0))
  {
    var r := UpdateOutcome(p, id, updateData);
    if r.Ok? {
      UpdatedItem(p, id, updateData);
      assert ReplicaFields(s, id) == PrimaryFields(p, id);
      ConsumedStored(s, ItemUpdated, r.value, now);
      MirrorsRestored(p, s, Updated(p, id, updateData).0, Consumed(s, ItemUpdated, r.value, now).0, id);
    } else if ValidId(id) && ParseItemPatch(updateData).Ok? {
      UpdatedByIdSpec(p, id, ParseItemPatch(updateData).value);
    }
  }

  /** A delete, its event consumed, keeps the replica a mirror; a failed delete publishes
      nothing and changes nothing. */
  lemma DeleteMirrored(p: ItemState, s: ReplicaState, id: string, now: string)
    requires ItemStore.WellFormed(p) && ConsumedItems.WellFormed(s) && Mirrors(p, s)
    ensures var r := DeleteOutcome(p, id);
      && (r.Err? ==> Deleted(p, id).0 == p)
      && (r.Ok? ==>
            && Consumed(s, ItemDeleted, r.value, now).1 == Handled
            && Mirrors(Deleted(p, id).0, Consumed(s, ItemDeleted, r.value, now).0))
  {
    var r := DeleteOutcome(p, id);
    if ValidId(id) {
      var p' := DeletedById(p, id).0;
      assert r.Err? ==> p' == p && Deleted(p, id).0 == p by {
        DeletedByIdSpec(p, id);
      }
      if r.Ok? {
        assert r.value.id == id && PrimaryFields(p', id) == None by {
          DeletedByIdSpec(p, id);
        }
        var event := ItemEvent(ItemDeleted, id, Some(EventData(r.value)), now);
        var s' := Applied(s, event).0;
        assert Consumed(s, ItemDeleted, r.value, now).0 == s' && Consumed(s, ItemDeleted, r.value, now).1 == Handled by {
          ConsumedIsApplied(s, ItemDeleted, r.value, now);
          DeleteSpec(s, event);
        }
        assert ReplicaFields(s', id) == None by {
          DeleteSpec(s, event);
        }
        forall other | other != id
          ensures ReplicaFields(s', other) == ReplicaFields(s, other)
          ensures PrimaryFields(p', other) == PrimaryFields(p, other)
        {
          DeletedByIdKeepsOthers(p, id, other);
          AppliedKeepsOthers(s, event, other);
        }
        MirrorsRestored(p, s, p', s', id);
      }
    }
  }

  /** The publish is fire-and-forget: a create whose event never reaches the topic leaves
      the replica without the new item, and nothing repairs it. */
  lemma LostCreateDiverges(p: ItemState, s: ReplicaState, itemData: Json)
    requires ItemStore.WellFormed(p) && ConsumedItems.WellFormed(s) && Mirrors(p, s)
    requires CreateOutcome(p, itemData).Ok?
    ensures !Mirrors(Created(p, itemData).0, s)
  {
    var f := ParseItem(itemData).value;
    SavedSpec(p, f);
    var key := CreateOutcome(p, itemData).value.id;
    assert ReplicaFields(s, key) == PrimaryFields(p, key) == None;
    assert PrimaryFields(Created(p, itemData).0, key).Some?;
  }
}
