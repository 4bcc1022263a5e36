/** The consumer's `consumed-items` collection as the Mongoose model `ConsumedItem` keeps
    it: the zod validator declared beside it, and the two writes the event handler makes,
    an upsert and a delete, both filtered on `originalItemId`. Rows are kept in insertion
    order; ids and `createdAt` come from counters that only grow. */
module ConsumedItems {
  import opened Wrappers
  import opened JsonValues
  import opened Validation
  import opened Items
  import Text

  /** `new Date(text)`, kept as the text it was made from. */
  datatype Date = DateOf(text: string)

  // ---------------------------------------------------------------------------
  // `consumedItemSchemaZod`: the item validator plus `originalItemId` and `lastSyncedAt`.

  datatype ConsumedItemInput = ConsumedItemInput(fields: ItemFields, originalItemId: string, lastSyncedAt: Date)

  const ConsumedItemKeys: set<string> := ItemKeys + {"originalItemId", "lastSyncedAt"}

  predicate ConsumedItemShape(j: Json) {
    && ItemShape(j, false)
    && Property(j, "originalItemId").Some? && Property(j, "originalItemId").value.JString?
    && Property(j, "lastSyncedAt").Some? && Property(j, "lastSyncedAt").value.JString?
  }

  function OriginalItemIdIssues(v: Option<Json>): (r: seq<Issue>)
    ensures r == [] <==> v.Some? && v.value.JString?
  {
    if v.Some? && v.value.JString? then [] else [InvalidType(["originalItemId"], "string", v)]
  }

  /** `z.union([z.date(), z.string()])`: no JSON value is a `Date`, so only a string passes,
      and a union that fails in both branches is reported as "Invalid input". */
  function LastSyncedAtIssues(v: Option<Json>): (r: seq<Issue>)
    ensures r == [] <==> v.Some? && v.value.JString?
  {
    if v.Some? && v.value.JString? then [] else [Issue(["lastSyncedAt"], "Invalid input")]
  }

  function ConsumedItemIssues(j: Json): (r: seq<Issue>)
    ensures r == [] <==> ConsumedItemShape(j)
  {
    if !j.JObject? then [InvalidType([], "object", Some(j))]
    else
      FieldIssues(j, false)
      + OriginalItemIdIssues(Property(j, "originalItemId"))
      + LastSyncedAtIssues(Property(j, "lastSyncedAt"))
  }

  /** `consumedItemSchemaZod.safeParse(j)`: the four item fields under the primary's own bounds,
      the original id, and the time transformed into a `Date`; or every issue found. */
  function ParseConsumedItem(j: Json): (r: Result<ConsumedItemInput, seq<Issue>>)
    ensures r.Ok? <==> ConsumedItemShape(j)
    ensures r.Err? ==> r.error != [] && r.error == ConsumedItemIssues(j)
    ensures r.Ok? ==> ParseItem(j) == Ok(r.value.fields)
    ensures r.Ok? ==> Property(j, "originalItemId") == Some(JString(r.value.originalItemId))
    ensures r.Ok? ==> Property(j, "lastSyncedAt") == Some(JString(r.value.lastSyncedAt.text))
  {
    var issues := ConsumedItemIssues(j);
    if issues != [] then Err(issues)
    else Ok(ConsumedItemInput(ParseItem(j).value, j.fields["originalItemId"].s, DateOf(j.fields["lastSyncedAt"].s)))
  }

  /** The consumer's validator accepts exactly what the primary's accepts, plus a string
      `originalItemId` and a string `lastSyncedAt`; its bounds are the primary's. */
  lemma ConsumedValidatorExtendsItemValidator(j: Json)
    ensures ParseConsumedItem(j).Ok? <==>
      && ParseItem(j).Ok?
      && Property(j, "originalItemId").Some? && Property(j, "originalItemId").value.JString?
      && Property(j, "lastSyncedAt").Some? && Property(j, "lastSyncedAt").value.JString?
    ensures ParseConsumedItem(j).Ok? ==> WithinBounds(ParseConsumedItem(j).value.fields)
  {
    if ParseConsumedItem(j).Ok? {
      ParsedWithinBounds(j);
    }
  }

  /** A missing or non-string `originalItemId` is refused, even when everything else is valid. */
  lemma OriginalItemIdRequired(j: Json)
    requires j.JObject?
    requires "originalItemId" !in j.fields || !j.fields["originalItemId"].JString?
    ensures ParseConsumedItem(j).Err?
    ensures InvalidType(["originalItemId"], "string", Property(j, "originalItemId")) in ParseConsumedItem(j).error
  {
    var issues := ConsumedItemIssues(j);
    assert issues == FieldIssues(j, false) + OriginalItemIdIssues(Property(j, "originalItemId"))
      + LastSyncedAtIssues(Property(j, "lastSyncedAt"));
    assert OriginalItemIdIssues(Property(j, "originalItemId"))[0] in issues;
  }

  // ---------------------------------------------------------------------------
  // The collection.

  datatype ReplicaRow = ReplicaRow(
    id: nat,
    fields: ItemFields,
    originalItemId: string,
    lastSyncedAt: Date,
    createdAt: nat,
    updatedAt: nat)

  datatype ReplicaState = ReplicaState(rows: seq<ReplicaRow>, nextId: nat, clock: nat)

  const EmptyReplica: ReplicaState := ReplicaState([], 0, 0)

  /** What the schema lets a stored row hold (the same paths as the primary's `Item`). */
  predicate RowStored(f: ItemFields) {
    StoreAccepts(f) && IsTrimmed(f) && !f.quantity.Undefined?
  }

  predicate RowOk(r: ReplicaRow, s: ReplicaState) {
    r.id < s.nextId && r.createdAt <= r.updatedAt < s.clock && RowStored(r.fields)
  }

  /** Every row is one the schema accepts, rows are in creation order, and the unique index
      on `originalItemId` holds. */
  predicate WellFormed(s: ReplicaState) {
    && (forall i :: 0 <= i < |s.rows| ==> RowOk(s.rows[i], s))
    && (forall i, j :: 0 <= i < j < |s.rows| ==>
          && s.rows[i].id < s.rows[j].id
          && s.rows[i].createdAt < s.rows[j].createdAt
          && s.rows[i].originalItemId != s.rows[j].originalItemId)
  }

  function IndexOfKey(rows: seq<ReplicaRow>, key: string): (r: Option<nat>)
    ensures r.Some? ==> r.value < |rows| && rows[r.value].originalItemId == key
    ensures r.None? <==> forall i :: 0 <= i < |rows| ==> rows[i].originalItemId != key
  {
    if rows == [] then None
    else if rows[0].originalItemId == key then Some(0)
    else match IndexOfKey(rows[1..], key)
      case None => None
      case Some(k) => Some(k + 1)
  }

  /** `ConsumedItem.findOne({ originalItemId: key })` */
  function FindByKey(s: ReplicaState, key: string): Option<ReplicaRow> {
    match IndexOfKey(s.rows, key)
    case None => None
    case Some(i) => Some(s.rows[i])
  }

  function LastNamed(rows: seq<ReplicaRow>, name: string): (r: Option<nat>)
    ensures r.Some? ==> r.value < |rows| && rows[r.value].fields.name == name
    ensures r.Some? ==> forall j :: r.value < j < |rows| ==> rows[j].fields.name != name
    ensures r.None? <==> forall j :: 0 <= j < |rows| ==> rows[j].fields.name != name
  {
    if rows == [] then None
    else if rows[|rows| - 1].fields.name == name then Some(|rows| - 1)
    else LastNamed(rows[..|rows| - 1], name)
  }

  /** `ConsumedItem.findOne({ name }).sort({ createdAt: -1 })`, the filter value trimmed by the
      schema's `trim` setter as Mongoose casts it. */
  function FindOneByName(s: ReplicaState, name: string): Option<ReplicaRow> {
    match LastNamed(s.rows, Text.Trim(name))
    case None => None
    case Some(i) => Some(s.rows[i])
  }

  // ---------------------------------------------------------------------------
  // `findOneAndUpdate({ originalItemId: key }, update, { upsert: true, new: true,
  // runValidators: true })`. An update key whose value is `undefined` is dropped and
  // writes nothing; `null` writes null; anything else is cast to the path's type.

  /** The update as the handler hands it over, one property per item path (`None` is
      `undefined`); the write of `originalItemId` repeats the filter and is implied. */
  datatype RawUpdate = RawUpdate(
    name: Option<Json>,
    description: Option<Json>,
    price: Option<Json>,
    quantity: Option<Json>,
    lastSyncedAt: Date)

  /** The update after casting: `Undefined` paths are not written. */
  datatype ReplicaUpdate = ReplicaUpdate(
    name: Field<string>,
    description: Field<string>,
    price: Field<Num>,
    quantity: Field<Num>,
    lastSyncedAt: Date)

  datatype ReplicaError = CastFailed(path: string) | ValidationFailed

  function CastString(path: string, v: Option<Json>): (r: Result<Field<string>, ReplicaError>)
    ensures r.Ok? <==> v.None? || v.value.JNull? || v.value.JString?
    ensures r.Err? ==> r.error == CastFailed(path)
  {
    if v.None? then Ok(Undefined)
    else if v.value.JNull? then Ok(Null)
    else if v.value.JString? then Ok(Defined(v.value.s))
    else Err(CastFailed(path))
  }

  function CastNumber(path: string, v: Option<Json>): (r: Result<Field<Num>, ReplicaError>)
    ensures r.Ok? <==> v.None? || v.value.JNull? || v.value.JNumber?
    ensures r.Err? ==> r.error == CastFailed(path)
  {
    if v.None? then Ok(Undefined)
    else if v.value.JNull? then Ok(Null)
    else if v.value.JNumber? then Ok(Defined(v.value.n))
    else Err(CastFailed(path))
  }

  /** The paths are cast in schema order; the first that fails is reported. */
  function CastUpdate(u: RawUpdate): Result<ReplicaUpdate, ReplicaError> {
    var name := CastString("name", u.name);
    var description := CastString("description", u.description);
    var price := CastNumber("price", u.price);
    var quantity := CastNumber("quantity", u.quantity);
    if name.Err? then Err(name.error)
    else if description.Err? then Err(description.error)
    else if price.Err? then Err(price.error)
    else if quantity.Err? then Err(quantity.error)
    else Ok(ReplicaUpdate(name.value, description.value, price.value, quantity.value, u.lastSyncedAt))
  }

  /** The `trim: true` setters on the written paths. */
  function TrimUpdate(u: ReplicaUpdate): ReplicaUpdate {
    u.(name := if u.name.Defined? then Defined(Text.Trim(u.name.value)) else u.name,
       description := TrimDescription(u.description))
  }

  /** The validators of the written paths: `required` refuses a null or empty name, and a
      new row needs a name; `maxlength` and `min` bound what is written. (The key, written
      as `originalItemId`, is checked by `required` too: see `Upserted`.) */
  predicate UpdateAccepted(u: ReplicaUpdate, rowExists: bool) {
    && !u.name.Null?
    && (u.name.Defined? ==> 1 <= |u.name.value| <= MaxNameLength)
    && (u.name.Undefined? ==> rowExists)
    && FieldAtMost(u.description, MaxDescriptionLength)
    && FieldAtLeast(u.price, 0.0)
    && FieldAtLeast(u.quantity, 0.0)
  }

  /** The written paths over an existing row's fields. */
  function Overwritten(f: ItemFields, u: ReplicaUpdate): ItemFields {
    ItemFields(
      if u.name.Defined? then u.name.value else f.name,
      if u.description.Undefined? then f.description else u.description,
      if u.price.Undefined? then f.price else u.price,
      if u.quantity.Undefined? then f.quantity else u.quantity)
  }

  /** A new row: the written paths, and `default: 0` for a quantity the update leaves out. */
  function InsertedFields(u: ReplicaUpdate): ItemFields
    requires u.name.Defined?
  {
    ItemFields(u.name.value, u.description, u.price, if u.quantity.Undefined? then Defined(0.0) else u.quantity)
  }

  function Upserted(s: ReplicaState, key: string, raw: RawUpdate): (ReplicaState, Result<ReplicaRow, ReplicaError>) {
    match CastUpdate(raw)
    case Err(e) => (s, Err(e))
    case Ok(c) =>
      var u := TrimUpdate(c);
      var i := IndexOfKey(s.rows, key);
      if key == "" || !UpdateAccepted(u, i.Some?) then (s, Err(ValidationFailed))
      else if i.Some? then
        var row := s.rows[i.value].(fields := Overwritten(s.rows[i.value].fields, u),
                                    lastSyncedAt := u.lastSyncedAt, updatedAt := s.clock);
        (s.(rows := s.rows[i.value := row], clock := s.clock + 1), Ok(row))
      else
        var row := ReplicaRow(s.nextId, InsertedFields(u), key, u.lastSyncedAt, s.clock, s.clock);
        (ReplicaState(s.rows + [row], s.nextId + 1, s.clock + 1), Ok(row))
  }

  function Without(rows: seq<ReplicaRow>, i: nat): (r: seq<ReplicaRow>)
    requires i < |rows|
    ensures |r| == |rows| - 1
    ensures forall k :: 0 <= k < |r| ==> r[k] == if k < i then rows[k] else rows[k + 1]
  {
    rows[..i] + rows[i + 1..]
  }

  /** `ConsumedItem.findOneAndDelete({ originalItemId: key })` */
  function Removed(s: ReplicaState, key: string): (ReplicaState, Option<ReplicaRow>) {
    match IndexOfKey(s.rows, key)
    case None => (s, None)
    case Some(i) => (s.(rows := Without(s.rows, i)), Some(s.rows[i]))
  }

  /** The `consumed-items` collection: one shared, mutable store. */
  class ConsumedItemCollection {
    var state: ReplicaState

    ghost predicate Valid()
      reads this
    {
      WellFormed(state)
    }

    constructor ()
      ensures state == EmptyReplica && Valid()
    {
      state := EmptyReplica;
    }

    method FindOneAndUpdate(key: string, update: RawUpdate) returns (r: Result<ReplicaRow, ReplicaError>)
      requires Valid()
      modifies this
      ensures Valid()
      ensures (state, r) == Upserted(old(state), key, update)
    {
      UpsertedWellFormed(state, key, update);
      var (t, row) := Upserted(state, key, update);
      state := t;
      r := row;
    }

    method FindOneAndDelete(key: string) returns (r: Option<ReplicaRow>)
      requires Valid()
      modifies this
      ensures Valid()
      ensures (state, r) == Removed(old(state), key)
    {
      RemovedSpec(state, key);
      var (t, row) := Removed(state, key);
      state := t;
      r := row;
    }
  }

  // ---------------------------------------------------------------------------
  // Properties.

  lemma EmptyReplicaWellFormed()
    ensures WellFormed(EmptyReplica) && forall key :: FindByKey(EmptyReplica, key).None?
  {
  }

  /** The unique index: the row found by key is the only row with that key. */
  lemma FindByKeyUnique(s: ReplicaState, key: string, i: nat)
    requires WellFormed(s) && i < |s.rows| && s.rows[i].originalItemId == key
    ensures FindByKey(s, key) == Some(s.rows[i])
  {
  }

  /** `findOne` by name picks, among the rows whose stored name is the trimmed query, the
      newest. */
  lemma FindOneByNameNewest(s: ReplicaState, name: string)
    requires WellFormed(s)
    ensures FindOneByName(s, name).None? <==> forall r :: r in s.rows ==> r.fields.name != Text.Trim(name)
    ensures FindOneByName(s, name).Some? ==>
      var r := FindOneByName(s, name).value;
      && r in s.rows && r.fields.name == Text.Trim(name)
      && forall q :: q in s.rows && q.fields.name == Text.Trim(name) && q != r ==> q.createdAt < r.createdAt
  {
    if FindOneByName(s, name).None? {
      forall r | r in s.rows ensures r.fields.name != Text.Trim(name) {
        var j :| 0 <= j < |s.rows| && s.rows[j] == r;
      }
    } else {
      var i := LastNamed(s.rows, Text.Trim(name)).value;
      forall q | q in s.rows && q.fields.name == Text.Trim(name) && q != s.rows[i]
        ensures q.createdAt < s.rows[i].createdAt
      {
        var j :| 0 <= j < |s.rows| && s.rows[j] == q;
      }
    }
  }

  /** Whitespace around the query does not change what `findOne` by name finds: a search for
      "Widget " finds the item named "Widget". */
  lemma FindOneByNamePadding(s: ReplicaState, p: string, name: string, q: string)
    requires Text.AllWhitespace(p) && Text.AllWhitespace(q)
    ensures FindOneByName(s, p + name + q) == FindOneByName(s, name)
  {
    Text.TrimIgnoresPadding(p, name, q);
  }

  lemma TrimUpdateTrims(f: ItemFields, c: ReplicaUpdate)
    requires IsTrimmed(f)
    ensures IsTrimmed(Overwritten(f, TrimUpdate(c)))
    ensures TrimUpdate(c).name.Defined? ==> IsTrimmed(InsertedFields(TrimUpdate(c)))
  {
    if c.name.Defined? { Text.TrimIdempotent(c.name.value); }
    if c.description.Defined? { Text.TrimIdempotent(c.description.value); }
  }

  /** An accepted update leaves the row within the schema. */
  lemma AcceptedStored(f: ItemFields, u: ReplicaUpdate)
    requires UpdateAccepted(u, true) && StoreAccepts(f) && !f.quantity.Undefined?
    ensures StoreAccepts(Overwritten(f, u)) && !Overwritten(f, u).quantity.Undefined?
  {
  }

  /** Rewriting one row in place, keeping its id, key and creation time, and stamping it
      with the clock, keeps the collection well formed. */
  lemma RewrittenWellFormed(s: ReplicaState, i: nat, row: ReplicaRow)
    requires WellFormed(s) && i < |s.rows|
    requires row.id == s.rows[i].id && row.createdAt == s.rows[i].createdAt
    requires row.originalItemId == s.rows[i].originalItemId
    requires row.updatedAt == s.clock && RowStored(row.fields)
    ensures WellFormed(s.(rows := s.rows[i := row], clock := s.clock + 1))
  {
    var t := s.(rows := s.rows[i := row], clock := s.clock + 1);
    assert forall k :: 0 <= k < |t.rows| && k != i ==> t.rows[k] == s.rows[k];
    assert RowOk(t.rows[i], t);
  }

  /** Appending a row with a fresh id and key, created now, keeps the collection well formed. */
  lemma AppendedWellFormed(s: ReplicaState, row: ReplicaRow)
    requires WellFormed(s)
    requires row.id == s.nextId && row.createdAt == s.clock && row.updatedAt == s.clock
    requires forall k :: 0 <= k < |s.rows| ==> s.rows[k].originalItemId != row.originalItemId
    requires RowStored(row.fields)
    ensures WellFormed(ReplicaState(s.rows + [row], s.nextId + 1, s.clock + 1))
  {
  }

  lemma {:induction false} UpsertedWellFormed(s: ReplicaState, key: string, raw: RawUpdate)
    requires WellFormed(s)
    ensures WellFormed(Upserted(s, key, raw).0)
  {
    var (t, r) := Upserted(s, key, raw);
    if r.Ok? {
      var c := CastUpdate(raw).value;
      var u := TrimUpdate(c);
      var i := IndexOfKey(s.rows, key);
      if i.Some? {
        var f := s.rows[i.value].fields;
        TrimUpdateTrims(f, c);
        AcceptedStored(f, u);
        RewrittenWellFormed(s, i.value, r.value);
      } else {
        TrimUpdateTrims(ItemFields("", Undefined, Undefined, Undefined), c);
        AppendedWellFormed(s, r.value);
      }
    }
  }

  /** What a cast that succeeds leaves after the setters: a string trimmed, a number as
      sent, `null` as null, and an undefined path unwritten. */
  lemma CastTrimmed(raw: RawUpdate)
    requires CastUpdate(raw).Ok?
    ensures var u := TrimUpdate(CastUpdate(raw).value);
      && u.name == (match raw.name
           case None => Undefined
           case Some(v) => if v.JString? then Defined(Text.Trim(v.s)) else Null)
      && u.description == (match raw.description
           case None => Undefined
           case Some(v) => if v.JString? then Defined(Text.Trim(v.s)) else Null)
      && u.price == (match raw.price
           case None => Undefined
           case Some(v) => if v.JNumber? then Defined(v.n) else Null)
      && u.quantity == (match raw.quantity
           case None => Undefined
           case Some(v) => if v.JNumber? then Defined(v.n) else Null)
      && u.lastSyncedAt == raw.lastSyncedAt
  {
  }

  /** The upsert either fails, changing nothing (always for the empty key, which `required`
      refuses), or leaves exactly one row under the key:
      the existing one, keeping its id and creation time, with the written paths
      overwritten, or a new one appended; either way it carries the event's sync time. */
  lemma UpsertedSpec(s: ReplicaState, key: string, raw: RawUpdate)
    requires WellFormed(s)
    ensures var (t, r) := Upserted(s, key, raw);
      && (r.Err? ==> t == s)
      && (CastUpdate(raw).Err? ==> r == Err(CastUpdate(raw).error))
      && (CastUpdate(raw).Ok? ==>
            (r.Ok? <==> key != "" && UpdateAccepted(TrimUpdate(CastUpdate(raw).value), FindByKey(s, key).Some?)))
      && (r.Ok? ==>
            && FindByKey(t, key) == Some(r.value)
            && r.value.originalItemId == key
            && r.value.lastSyncedAt == raw.lastSyncedAt)
      && (r.Ok? && FindByKey(s, key).Some? ==>
            var before := FindByKey(s, key).value;
            && |t.rows| == |s.rows|
            && r.value.id == before.id && r.value.createdAt == before.createdAt
            && r.value.fields == Overwritten(before.fields, TrimUpdate(CastUpdate(raw).value)))
      && (r.Ok? && FindByKey(s, key).None? ==>
            && t.rows == s.rows + [r.value]
            && r.value.fields == InsertedFields(TrimUpdate(CastUpdate(raw).value)))
  {
    var (t, r) := Upserted(s, key, raw);
    if r.Ok? {
      UpsertedWellFormed(s, key, raw);
      var i := IndexOfKey(s.rows, key);
      if i.Some? {
        FindByKeyUnique(t, key, i.value);
      } else {
        FindByKeyUnique(t, key, |s.rows|);
      }
    }
  }

  /** An upsert under one key leaves what every other key finds as it was. */
  lemma UpsertedKeepsOthers(s: ReplicaState, key: string, raw: RawUpdate, other: string)
    requires WellFormed(s) && other != key
    ensures FindByKey(Upserted(s, key, raw).0, other) == FindByKey(s, other)
  {
    var (t, r) := Upserted(s, key, raw);
    if r.Ok? {
      UpsertedWellFormed(s, key, raw);
      var j := IndexOfKey(s.rows, other);
      if j.Some? {
        assert t.rows[j.value] == s.rows[j.value];
        FindByKeyUnique(t, other, j.value);
      } else {
        assert forall k :: 0 <= k < |t.rows| ==> t.rows[k].originalItemId != other by {
          forall k | 0 <= k < |t.rows| ensures t.rows[k].originalItemId != other {
            if k < |s.rows| {
              assert t.rows[k].originalItemId == s.rows[k].originalItemId;
            }
          }
        }
      }
    }
  }

  /** Two rows that differ at most in `updatedAt`. */
  function Unstamped(r: ReplicaRow): ReplicaRow {
    r.(updatedAt := 0)
  }

  /** The collection as seen by everything but `updatedAt` and the clock behind it. */
  predicate SameContents(s: ReplicaState, t: ReplicaState) {
    && s.nextId == t.nextId
    && |s.rows| == |t.rows|
    && forall k :: 0 <= k < |s.rows| ==> Unstamped(s.rows[k]) == Unstamped(t.rows[k])
  }

  lemma OverwrittenTwice(f: ItemFields, u: ReplicaUpdate)
    ensures Overwritten(Overwritten(f, u), u) == Overwritten(f, u)
    ensures u.name.Defined? ==> Overwritten(InsertedFields(u), u) == InsertedFields(u)
  {
  }

  /** The same upsert applied twice yields the collection it yields once, up to the
      second `updatedAt` stamp: the second one finds its row and rewrites the same values. */
  lemma {:induction false} UpsertIdempotent(s: ReplicaState, key: string, raw: RawUpdate)
    requires WellFormed(s)
    ensures var t := Upserted(s, key, raw).0;
      SameContents(Upserted(t, key, raw).0, t)
    ensures Upserted(Upserted(s, key, raw).0, key, raw).1.Ok? == Upserted(s, key, raw).1.Ok?
  {
    var (t, r) := Upserted(s, key, raw);
    if r.Ok? {
      UpsertedSpec(s, key, raw);
      UpsertedWellFormed(s, key, raw);
      var u := TrimUpdate(CastUpdate(raw).value);
      var i := IndexOfKey(t.rows, key).value;
      assert t.rows[i] == r.value;
      OverwrittenTwice(if FindByKey(s, key).Some? then FindByKey(s, key).value.fields else r.value.fields, u);
      var (t2, r2) := Upserted(t, key, raw);
      assert r2.Ok? && t2.rows == t.rows[i := r2.value];
      assert Unstamped(r2.value) == Unstamped(r.value);
    }
  }

  lemma RemovedWellFormed(s: ReplicaState, i: nat)
    requires WellFormed(s) && i < |s.rows|
    ensures WellFormed(s.(rows := Without(s.rows, i)))
  {
  }

  /** A delete resolves to the row the key finds, which is gone afterwards; a delete of an
      absent key changes nothing. */
  lemma RemovedSpec(s: ReplicaState, key: string)
    requires WellFormed(s)
    ensures var (t, r) := Removed(s, key);
      && WellFormed(t)
      && r == FindByKey(s, key)
      && (r.None? ==> t == s)
      && FindByKey(t, key).None?
  {
    var (t, r) := Removed(s, key);
    if r.Some? {
      RemovedWellFormed(s, IndexOfKey(s.rows, key).value);
    }
  }

  /** A delete under one key leaves what every other key finds as it was. */
  lemma RemovedKeepsOthers(s: ReplicaState, key: string, other: string)
    requires other != key
    ensures FindByKey(Removed(s, key).0, other) == FindByKey(s, other)
  {
    match IndexOfKey(s.rows, key)
    case None =>
    case Some(i) =>
      assert Removed(s, key).0 == s.(rows := Without(s.rows, i));
      WithoutIndexOfKey(s.rows, i, other);
  }

  /** Removing a row under another key leaves the first match for `other` the same row,
      wherever it now sits. */
  lemma {:induction false} WithoutIndexOfKey(rows: seq<ReplicaRow>, i: nat, other: string)
    requires i < |rows| && rows[i].originalItemId != other
    ensures IndexOfKey(Without(rows, i), other).None? <==> IndexOfKey(rows, other).None?
    ensures IndexOfKey(rows, other).Some? ==>
      Without(rows, i)[IndexOfKey(Without(rows, i), other).value] == rows[IndexOfKey(rows, other).value]
    decreases i
  {
    var w := Without(rows, i);
    if i == 0 {
      assert w == rows[1..];
    } else if rows[0].originalItemId != other {
      var w' := Without(rows[1..], i - 1);
      assert w[0] == rows[0] && w[1..] == w';
      WithoutIndexOfKey(rows[1..], i - 1, other);
    } else {
      assert w[0] == rows[0];
    }
  }

  /** Deleting twice is deleting once. */
  lemma RemovedIdempotent(s: ReplicaState, key: string)
    requires WellFormed(s)
    ensures Removed(Removed(s, key).0, key) == (Removed(s, key).0, None)
  {
    RemovedSpec(s, key);
  }
}
