/** `handleItemEvent`: how the consumer applies one validated item event to its
    `consumed-items` collection. `ITEM_CREATED` and `ITEM_UPDATED` both upsert the row
    keyed by the event's item id; `ITEM_DELETED` removes it. Errors are re-thrown to the
    caller. */
module ItemEventHandler {
  import opened Wrappers
  import opened JsonValues
  import opened Items
  import opened ItemEvents
  import opened ConsumedItems
  import Text

  datatype HandlerError = EventDataMissing | StoreFailed(cause: ReplicaError)

  function HandlerMessage(e: HandlerError): string {
    match e
    case EventDataMissing => "Event data is missing"
    case StoreFailed(CastFailed(path)) => "Cast failed at path \"" + path + "\""
    case StoreFailed(ValidationFailed) => "ConsumedItem validation failed"
  }

  /** `data[key]`, `undefined` when the key is missing. */
  function Get(data: map<string, Json>, key: string): Option<Json> {
    if key in data then Some(data[key]) else None
  }

  /** The `updateData` object `handleItemCreatedOrUpdated` builds: the four item paths
      taken from `data` as they are (the `as` casts do nothing at run time), and
      `lastSyncedAt` as `new Date(timestamp)`. */
  function UpdateOf(data: map<string, Json>, timestamp: string): RawUpdate {
    RawUpdate(Get(data, "name"), Get(data, "description"), Get(data, "price"), Get(data, "quantity"),
              DateOf(timestamp))
  }

  /** What handling `e` does to the collection and whether it throws. */
  function Applied(s: ReplicaState, e: ItemEvent): (ReplicaState, Outcome<HandlerError>) {
    match e.eventType
    case ItemCreated => Synced(s, e)
    case ItemUpdated => Synced(s, e)
    case ItemDeleted => (Removed(s, e.itemId).0, Pass)
  }

  /** `handleItemCreatedOrUpdated` */
  function Synced(s: ReplicaState, e: ItemEvent): (ReplicaState, Outcome<HandlerError>) {
    if e.data.None? then (s, Fail(EventDataMissing))
    else
      var (t, r) := Upserted(s, e.itemId, UpdateOf(e.data.value, e.timestamp));
      (t, if r.Ok? then Pass else Fail(StoreFailed(r.error)))
  }

  /** `handleItemCreatedOrUpdated`: throws without `data`, otherwise one upsert. */
  method HandleItemCreatedOrUpdated(items: ConsumedItemCollection, event: ItemEvent) returns (r: Outcome<HandlerError>)
    requires items.Valid()
    modifies items
    ensures items.Valid()
    ensures (items.state, r) == Synced(old(items.state), event)
  {
    if event.data.None? {
      return Fail(EventDataMissing);
    }
    var updateData := UpdateOf(event.data.value, event.timestamp);
    var result := items.FindOneAndUpdate(event.itemId, updateData);
    r := if result.Ok? then Pass else Fail(StoreFailed(result.error));
  }

  /** `handleItemDeleted`: one delete; a missing row is only logged. */
  method HandleItemDeleted(items: ConsumedItemCollection, event: ItemEvent) returns (r: Outcome<HandlerError>)
    requires items.Valid()
    modifies items
    ensures items.Valid()
    ensures items.state == Removed(old(items.state), event.itemId).0
    ensures r == Pass
  {
    var result := items.FindOneAndDelete(event.itemId);
    r := Pass;
  }

  /** `handleItemEvent`: dispatch on the event type; whatever a branch throws is re-thrown. */
  method HandleItemEvent(items: ConsumedItemCollection, event: ItemEvent) returns (r: Outcome<HandlerError>)
    requires items.Valid()
    modifies items
    ensures items.Valid()
    ensures (items.state, r) == Applied(old(items.state), event)
  {
    match event.eventType {
      case ItemCreated =>
        r := HandleItemCreatedOrUpdated(items, event);
      case ItemUpdated =>
        r := HandleItemCreatedOrUpdated(items, event);
      case ItemDeleted =>
        r := HandleItemDeleted(items, event);
    }
  }

  // ---------------------------------------------------------------------------
  // Properties.

  /** Handling keeps the collection within the schema and the unique index on the key. */
  lemma AppliedWellFormed(s: ReplicaState, e: ItemEvent)
    requires WellFormed(s)
    ensures WellFormed(Applied(s, e).0)
  {
    if e.eventType == ItemDeleted {
      RemovedSpec(s, e.itemId);
    } else if e.data.Some? {
      UpsertedWellFormed(s, e.itemId, UpdateOf(e.data.value, e.timestamp));
    }
  }

  /** `ITEM_CREATED` and `ITEM_UPDATED` take the same path. */
  lemma CreatedIsUpdated(s: ReplicaState, itemId: string, data: Option<map<string, Json>>, timestamp: string)
    ensures Applied(s, ItemEvent(ItemCreated, itemId, data, timestamp))
         == Applied(s, ItemEvent(ItemUpdated, itemId, data, timestamp))
  {
  }

  /** A create or update without `data` throws "Event data is missing" and changes nothing. */
  lemma MissingDataRejected(s: ReplicaState, e: ItemEvent)
    requires e.eventType != ItemDeleted && e.data.None?
    ensures Applied(s, e) == (s, Fail(EventDataMissing))
    ensures HandlerMessage(Applied(s, e).1.error) == "Event data is missing"
  {
  }

  /** The schema lets an empty item id through, but the store's `required` on
      `originalItemId` refuses it: such a create or update always fails, changing nothing. */
  lemma EmptyItemIdRejected(s: ReplicaState, e: ItemEvent)
    requires e.eventType != ItemDeleted && e.itemId == ""
    ensures Applied(s, e).1.Fail? && Applied(s, e).0 == s
  {
  }

  /** A failed create or update leaves the collection as it was. */
  lemma FailureChangesNothing(s: ReplicaState, e: ItemEvent)
    requires WellFormed(s)
    ensures Applied(s, e).1.Fail? ==> Applied(s, e).0 == s
    ensures e.eventType == ItemDeleted ==> Applied(s, e).1 == Pass
  {
    if e.eventType != ItemDeleted && e.data.Some? {
      UpsertedSpec(s, e.itemId, UpdateOf(e.data.value, e.timestamp));
    }
  }

  /** After a successful create or update, the row under the event's item id holds the
      event's data: a string name or description trimmed, a number as sent, a `null` as
      null; a path `data` leaves out keeps the row's old value, and on a new row stays
      unset, except a quantity, which defaults to 0. Its sync time is the event's. */
  lemma {:induction false} SyncedRowHoldsData(s: ReplicaState, e: ItemEvent)
    requires WellFormed(s) && e.eventType != ItemDeleted
    requires Applied(s, e).1.Pass?
    ensures e.data.Some?
    ensures var t := Applied(s, e).0;
      var data := e.data.value;
      var before := FindByKey(s, e.itemId);
      && FindByKey(t, e.itemId).Some?
      && var row := FindByKey(t, e.itemId).value;
      && row.originalItemId == e.itemId
      && row.lastSyncedAt == DateOf(e.timestamp)
      && (Get(data, "name").Some? ==> Get(data, "name").value.JString? && row.fields.name == Text.Trim(data["name"].s))
      && (Get(data, "name").None? ==> before.Some? && row.fields.name == before.value.fields.name)
      && row.fields.description == (match Get(data, "description")
           case None => if before.Some? then before.value.fields.description else Undefined
           case Some(v) => if v.JString? then Defined(Text.Trim(v.s)) else Null)
      && row.fields.price == (match Get(data, "price")
           case None => if before.Some? then before.value.fields.price else Undefined
           case Some(v) => if v.JNumber? then Defined(v.n) else Null)
      && row.fields.quantity == (match Get(data, "quantity")
           case None => if before.Some? then before.value.fields.quantity else Defined(0.0)
           case Some(v) => if v.JNumber? then Defined(v.n) else Null)
      && (before.Some? ==> row.id == before.value.id && row.createdAt == before.value.createdAt)
  {
    var raw := UpdateOf(e.data.value, e.timestamp);
    var (t, r) := Upserted(s, e.itemId, raw);
    UpsertedSpec(s, e.itemId, raw);
    assert r.Ok?;
    CastTrimmed(raw);
    var u := TrimUpdate(CastUpdate(raw).value);
    assert FindByKey(t, e.itemId) == Some(r.value);
    if FindByKey(s, e.itemId).Some? {
      assert r.value.fields == Overwritten(FindByKey(s, e.itemId).value.fields, u);
    } else {
      assert r.value.fields == InsertedFields(u);
    }
  }

  /** The upsert inserts when the key is new, so an update that arrives before its create
      still leaves a row, one more than before. */
  lemma UpdateBeforeCreate(s: ReplicaState, itemId: string, name: string, timestamp: string)
    requires WellFormed(s) && FindByKey(s, itemId).None? && itemId != ""
    requires |name| <= MaxNameLength && Text.Trim(name) != ""
    ensures var (t, r) := Applied(s, ItemEvent(ItemUpdated, itemId, Some(map["name" := JString(name)]), timestamp));
      && r == Pass
      && |t.rows| == |s.rows| + 1
      && FindByKey(t, itemId).Some?
      && FindByKey(t, itemId).value.fields == ItemFields(Text.Trim(name), Undefined, Undefined, Defined(0.0))
  {
    var data := map["name" := JString(name)];
    var raw := UpdateOf(data, timestamp);
    assert raw == RawUpdate(Some(JString(name)), None, None, None, DateOf(timestamp));
    assert |Text.Trim(name)| <= |name|;
    UpsertedSpec(s, itemId, raw);
  }

  /** Handling the same event twice leaves the collection as handling it once does, up to
      the second `updatedAt` stamp, and succeeds or fails the same way. */
  lemma AppliedIdempotent(s: ReplicaState, e: ItemEvent)
    requires WellFormed(s)
    ensures SameContents(Applied(Applied(s, e).0, e).0, Applied(s, e).0)
    ensures Applied(Applied(s, e).0, e).1 == Applied(s, e).1
  {
    if e.eventType == ItemDeleted {
      RemovedIdempotent(s, e.itemId);
    } else if e.data.Some? {
      var raw := UpdateOf(e.data.value, e.timestamp);
      UpsertIdempotent(s, e.itemId, raw);
      UpsertedSpec(s, e.itemId, raw);
      UpsertedWellFormed(s, e.itemId, raw);
      UpsertedSpec(Upserted(s, e.itemId, raw).0, e.itemId, raw);
    }
  }

  /** An event touches only the row under its own item id. */
  lemma AppliedKeepsOthers(s: ReplicaState, e: ItemEvent, other: string)
    requires WellFormed(s) && other != e.itemId
    ensures FindByKey(Applied(s, e).0, other) == FindByKey(s, other)
  {
    if e.eventType == ItemDeleted {
      RemovedKeepsOthers(s, e.itemId, other);
    } else if e.data.Some? {
      UpsertedKeepsOthers(s, e.itemId, UpdateOf(e.data.value, e.timestamp), other);
    }
  }

  /** A delete removes the row under its key and never throws; for an absent key it is a no-op. */
  lemma DeleteSpec(s: ReplicaState, e: ItemEvent)
    requires WellFormed(s) && e.eventType == ItemDeleted
    ensures Applied(s, e).1 == Pass
    ensures FindByKey(Applied(s, e).0, e.itemId).None?
    ensures FindByKey(s, e.itemId).None? ==> Applied(s, e).0 == s
  {
    RemovedSpec(s, e.itemId);
  }
}
