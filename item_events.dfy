/** The item event both services exchange, the zod schema that each of them declares for
    it (the producer's and the consumer's are the same), and Kafka messages. */
module ItemEvents {
  import opened Wrappers
  import opened JsonValues
  import opened Validation

  datatype EventType = ItemCreated | ItemUpdated | ItemDeleted

  function EventTypeName(t: EventType): string {
    match t
    case ItemCreated => "ITEM_CREATED"
    case ItemUpdated => "ITEM_UPDATED"
    case ItemDeleted => "ITEM_DELETED"
  }

  /** `z.enum(['ITEM_CREATED', 'ITEM_UPDATED', 'ITEM_DELETED'])` on a string. */
  function EventTypeOf(s: string): (r: Option<EventType>)
    ensures r.Some? ==> EventTypeName(r.value) == s
    ensures r.None? <==> s !in {"ITEM_CREATED", "ITEM_UPDATED", "ITEM_DELETED"}
  {
    if s == "ITEM_CREATED" then Some(ItemCreated)
    else if s == "ITEM_UPDATED" then Some(ItemUpdated)
    else if s == "ITEM_DELETED" then Some(ItemDeleted)
    else None
  }

  /** A validated event; `data` is `z.record(z.unknown()).optional()`. */
  datatype ItemEvent = ItemEvent(
    eventType: EventType,
    itemId: string,
    data: Option<map<string, Json>>,
    timestamp: string)

  const EventKeys: set<string> := {"eventType", "itemId", "data", "timestamp"}

  const EnumExpected: string := "'ITEM_CREATED' | 'ITEM_UPDATED' | 'ITEM_DELETED'"

  function EventTypeIssues(v: Option<Json>): (r: seq<Issue>)
    ensures r == [] <==> v.Some? && v.value.JString? && EventTypeOf(v.value.s).Some?
  {
    if v.Some? && v.value.JString? then
      if EventTypeOf(v.value.s).Some? then []
      else [Issue(["eventType"], "Invalid enum value. Expected " + EnumExpected + ", received '" + v.value.s + "'")]
    else [InvalidType(["eventType"], EnumExpected, v)]
  }

  function StringIssues(key: string, v: Option<Json>): (r: seq<Issue>)
    ensures r == [] <==> v.Some? && v.value.JString?
  {
    if v.Some? && v.value.JString? then [] else [InvalidType([key], "string", v)]
  }

  function DataIssues(v: Option<Json>): (r: seq<Issue>)
    ensures r == [] <==> v.None? || v.value.JObject?
  {
    if v.None? || v.value.JObject? then [] else [InvalidType(["data"], "object", v)]
  }

  /** What the schema accepts, stated field by field. */
  predicate EventShape(j: Json) {
    && j.JObject?
    && "eventType" in j.fields && j.fields["eventType"].JString?
    && EventTypeOf(j.fields["eventType"].s).Some?
    && "itemId" in j.fields && j.fields["itemId"].JString?
    && ("data" in j.fields ==> j.fields["data"].JObject?)
    && "timestamp" in j.fields && j.fields["timestamp"].JString?
  }

  function EventIssues(j: Json): (r: seq<Issue>)
    ensures r == [] <==> EventShape(j)
  {
    if !j.JObject? then [InvalidType([], "object", Some(j))]
    else
      EventTypeIssues(Property(j, "eventType"))
      + StringIssues("itemId", Property(j, "itemId"))
      + DataIssues(Property(j, "data"))
      + StringIssues("timestamp", Property(j, "timestamp"))
  }

  /** The event as a JSON object, as `JSON.stringify` writes it: undefined `data` leaves no key. */
  function EventJson(e: ItemEvent): (j: Json)
    ensures j.JObject? && j.fields.Keys <= EventKeys
  {
    JObject(map["eventType" := JString(EventTypeName(e.eventType)),
                "itemId" := JString(e.itemId),
                "timestamp" := JString(e.timestamp)]
            + (if e.data.Some? then map["data" := JObject(e.data.value)] else map[]))
  }

  /** `itemEventSchemaZod.safeParse(j)`: the event with unknown keys stripped, or every issue. */
  function ParseEvent(j: Json): (r: Result<ItemEvent, seq<Issue>>)
    ensures r.Ok? <==> EventShape(j)
    ensures r.Err? ==> r.error != [] && r.error == EventIssues(j)
    ensures r.Ok? ==> EventJson(r.value) == Stripped(j, EventKeys)
  {
    var issues := EventIssues(j);
    if issues != [] then Err(issues)
    else
      var e := ItemEvent(
        EventTypeOf(j.fields["eventType"].s).value,
        j.fields["itemId"].s,
        if "data" in j.fields then Some(j.fields["data"].fields) else None,
        j.fields["timestamp"].s);
      assert EventJson(e).fields == Stripped(j, EventKeys).fields;
      Ok(e)
  }

  /** Every event, written out and read back, is accepted unchanged. */
  lemma EventRoundTrip(e: ItemEvent)
    ensures ParseEvent(EventJson(e)) == Ok(e)
  {
    var j := EventJson(e);
    assert EventShape(j);
    assert EventTypeOf(EventTypeName(e.eventType)) == Some(e.eventType);
  }

  /** Any string is an item id or a timestamp, the empty one included, and `data` may be left out. */
  lemma AnyIdAccepted(t: EventType, itemId: string, timestamp: string)
    ensures ParseEvent(EventJson(ItemEvent(t, itemId, None, timestamp))).Ok?
    ensures ParseEvent(EventJson(ItemEvent(t, "", None, ""))).Ok?
  {
    EventRoundTrip(ItemEvent(t, itemId, None, timestamp));
    EventRoundTrip(ItemEvent(t, "", None, ""));
  }

  /** Only the three literals are event types; `data` must be an object when present. */
  lemma EventTypeAndDataChecked(j: Json)
    requires j.JObject?
    ensures ("eventType" in j.fields && j.fields["eventType"].JString?
             && j.fields["eventType"].s !in {"ITEM_CREATED", "ITEM_UPDATED", "ITEM_DELETED"})
            ==> ParseEvent(j).Err?
    ensures "data" in j.fields && (j.fields["data"].JNull? || j.fields["data"].JArray?) ==> ParseEvent(j).Err?
  {
  }

  /** The event both publishers build: `{ eventType, itemId, data: itemData, timestamp }`. */
  function PublishedEvent(t: EventType, itemId: string, itemData: map<string, Json>, timestamp: string): Json {
    EventJson(ItemEvent(t, itemId, Some(itemData), timestamp))
  }

  /** The publishers' events always pass the schema, whatever the id, data and time. */
  lemma PublishedEventValid(t: EventType, itemId: string, itemData: map<string, Json>, timestamp: string)
    ensures ParseEvent(PublishedEvent(t, itemId, itemData, timestamp)) == Ok(ItemEvent(t, itemId, Some(itemData), timestamp))
  {
    EventRoundTrip(ItemEvent(t, itemId, Some(itemData), timestamp));
  }

  /** A Kafka message value: absent, empty, text that is not JSON, or a JSON document. */
  datatype Payload = NoValue | EmptyText | Malformed | Document(json: Json)

  datatype KafkaMessage = KafkaMessage(key: string, value: Payload)
}
