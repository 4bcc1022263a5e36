/** The four item fields shared by both services, the zod validator both item schemas
    declare for them, the Mongoose schema's setters, defaults and validators for them,
    and the `{name, description, price, quantity}` record that travels in events. */
module Items {
  import opened Wrappers
  import opened JsonValues
  import opened Validation
  import Text

  /** A JavaScript number; only equality and ordering are used. */
  type Num = real

  /** An optional property of a JavaScript object: missing, `null`, or a value. */
  datatype Field<+T> = Undefined | Null | Defined(value: T)

  datatype ItemFields = ItemFields(
    name: string,
    description: Field<string>,
    price: Field<Num>,
    quantity: Field<Num>)

  /** The output of `itemSchemaZod.partial()`: only the keys the request carried. */
  datatype ItemPatch = ItemPatch(
    name: Option<string>,
    description: Option<string>,
    price: Option<Num>,
    quantity: Option<Num>)

  const MaxNameLength: nat := 100
  const MaxDescriptionLength: nat := 500
  const ItemKeys: set<string> := {"name", "description", "price", "quantity"}

  /** `Number.isInteger` */
  predicate IsInteger(x: Num) {
    x.Floor as real == x
  }

  // ---------------------------------------------------------------------------
  // The zod validator: what each field must be, declaratively ...

  predicate NameOk(v: Option<Json>, optional: bool) {
    || (optional && v.None?)
    || (v.Some? && v.value.JString? && 1 <= |v.value.s| <= MaxNameLength)
  }

  predicate DescriptionOk(v: Option<Json>) {
    v.None? || (v.value.JString? && |v.value.s| <= MaxDescriptionLength)
  }

  predicate PriceOk(v: Option<Json>) {
    v.None? || (v.value.JNumber? && v.value.n > 0.0)
  }

  predicate QuantityOk(v: Option<Json>) {
    v.None? || (v.value.JNumber? && IsInteger(v.value.n) && v.value.n >= 0.0)
  }

  /** `itemSchemaZod` (or its `.partial()`) accepts `j`. */
  predicate ItemShape(j: Json, partial: bool) {
    && j.JObject?
    && NameOk(Property(j, "name"), partial)
    && DescriptionOk(Property(j, "description"))
    && PriceOk(Property(j, "price"))
    && QuantityOk(Property(j, "quantity"))
  }

  // ... and the issues zod reports, check by check.

  function NameIssues(v: Option<Json>, optional: bool): (r: seq<Issue>)
    ensures r == [] <==> NameOk(v, optional)
  {
    if v.None? && optional then []
    else if v.Some? && v.value.JString? then
      (if |v.value.s| < 1 then [Issue(["name"], "Name is required")] else [])
      + (if |v.value.s| > MaxNameLength then [Issue(["name"], "Name must be less than 100 characters")] else [])
    else [InvalidType(["name"], "string", v)]
  }

  function DescriptionIssues(v: Option<Json>): (r: seq<Issue>)
    ensures r == [] <==> DescriptionOk(v)
  {
    if v.None? then []
    else if v.value.JString? then
      if |v.value.s| > MaxDescriptionLength
      then [Issue(["description"], "Description must be less than 500 characters")]
      else []
    else [InvalidType(["description"], "string", v)]
  }

  function PriceIssues(v: Option<Json>): (r: seq<Issue>)
    ensures r == [] <==> PriceOk(v)
  {
    if v.None? then []
    else if v.value.JNumber? then
      if v.value.n <= 0.0 then [Issue(["price"], "Price must be a positive number")] else []
    else [InvalidType(["price"], "number", v)]
  }

  function QuantityIssues(v: Option<Json>): (r: seq<Issue>)
    ensures r == [] <==> QuantityOk(v)
  {
    if v.None? then []
    else if v.value.JNumber? then
      (if !IsInteger(v.value.n) then [Issue(["quantity"], "Expected integer, received float")] else [])
      + (if v.value.n < 0.0 then [Issue(["quantity"], "Quantity must be a non-negative integer")] else [])
    else [InvalidType(["quantity"], "number", v)]
  }

  /** The issues of the four field checks, in declaration order. */
  function FieldIssues(j: Json, partial: bool): (r: seq<Issue>)
    ensures r == [] <==> (
      && NameOk(Property(j, "name"), partial)
      && DescriptionOk(Property(j, "description"))
      && PriceOk(Property(j, "price"))
      && QuantityOk(Property(j, "quantity")))
  {
    NameIssues(Property(j, "name"), partial)
    + DescriptionIssues(Property(j, "description"))
    + PriceIssues(Property(j, "price"))
    + QuantityIssues(Property(j, "quantity"))
  }

  function ItemIssues(j: Json, partial: bool): (r: seq<Issue>)
    ensures r == [] <==> ItemShape(j, partial)
  {
    if !j.JObject? then [InvalidType([], "object", Some(j))] else FieldIssues(j, partial)
  }

  function StringField(v: Option<Json>): Field<string> {
    if v.Some? && v.value.JString? then Defined(v.value.s) else Undefined
  }

  function NumberField(v: Option<Json>): Field<Num> {
    if v.Some? && v.value.JNumber? then Defined(v.value.n) else Undefined
  }

  /** The four fields of an accepted object, as zod passes them through. */
  function FieldsOf(j: Json): ItemFields
    requires ItemShape(j, false)
  {
    ItemFields(
      Property(j, "name").value.s,
      StringField(Property(j, "description")),
      NumberField(Property(j, "price")),
      NumberField(Property(j, "quantity")))
  }

  /** `itemSchemaZod.safeParse(j)`: the four fields, passed through unchanged, or every issue found. */
  function ParseItem(j: Json): (r: Result<ItemFields, seq<Issue>>)
    ensures r.Ok? <==> ItemShape(j, false)
    ensures r.Err? ==> r.error != [] && r.error == ItemIssues(j, false)
    ensures r.Ok? ==> JObject(ItemData(r.value)) == Stripped(j, ItemKeys)
  {
    var issues := ItemIssues(j, false);
    if issues != [] then Err(issues)
    else
      FieldsOfStripped(j);
      Ok(FieldsOf(j))
  }

  function OptionalString(v: Option<Json>): Option<string> {
    if v.Some? && v.value.JString? then Some(v.value.s) else None
  }

  function OptionalNumber(v: Option<Json>): Option<Num> {
    if v.Some? && v.value.JNumber? then Some(v.value.n) else None
  }

  /** The keys of an accepted partial object, as zod passes them through. */
  function PatchOf(j: Json): ItemPatch {
    ItemPatch(
      OptionalString(Property(j, "name")),
      OptionalString(Property(j, "description")),
      OptionalNumber(Property(j, "price")),
      OptionalNumber(Property(j, "quantity")))
  }

  /** `itemSchemaZod.partial().safeParse(j)`: any subset of the four fields, each bounded as before. */
  function ParseItemPatch(j: Json): (r: Result<ItemPatch, seq<Issue>>)
    ensures r.Ok? <==> ItemShape(j, true)
    ensures r.Err? ==> r.error != [] && r.error == ItemIssues(j, true)
    ensures r.Ok? ==> JObject(PatchData(r.value)) == Stripped(j, ItemKeys)
  {
    var issues := ItemIssues(j, true);
    if issues != [] then Err(issues)
    else
      PatchOfStripped(j);
      Ok(PatchOf(j))
  }

  // ---------------------------------------------------------------------------
  // The `{name, description, price, quantity}` record as a JSON object: an undefined
  // field has no key (JSON.stringify drops it), a null one is kept as null.

  function StringEntry(key: string, f: Field<string>): map<string, Json> {
    match f
    case Undefined => map[]
    case Null => map[key := JNull]
    case Defined(s) => map[key := JString(s)]
  }

  function NumberEntry(key: string, f: Field<Num>): map<string, Json> {
    match f
    case Undefined => map[]
    case Null => map[key := JNull]
    case Defined(n) => map[key := JNumber(n)]
  }

  function ItemData(f: ItemFields): (d: map<string, Json>)
    ensures d.Keys <= ItemKeys && "name" in d
  {
    map["name" := JString(f.name)]
      + StringEntry("description", f.description)
      + NumberEntry("price", f.price)
      + NumberEntry("quantity", f.quantity)
  }

  function OptionEntry<T>(key: string, v: Option<T>, enc: T -> Json): map<string, Json> {
    if v.Some? then map[key := enc(v.value)] else map[]
  }

  function PatchData(p: ItemPatch): (d: map<string, Json>)
    ensures d.Keys <= ItemKeys
  {
    OptionEntry("name", p.name, (s: string) => JString(s))
      + OptionEntry("description", p.description, (s: string) => JString(s))
      + OptionEntry("price", p.price, (n: Num) => JNumber(n))
      + OptionEntry("quantity", p.quantity, (n: Num) => JNumber(n))
  }

  lemma ItemDataEntry(f: ItemFields, k: string)
    ensures k in ItemData(f) <==>
      || k == "name"
      || (k == "description" && !f.description.Undefined?)
      || (k == "price" && !f.price.Undefined?)
      || (k == "quantity" && !f.quantity.Undefined?)
  {
  }

  /** What zod outputs for an accepted object is the object with only the four keys. */
  lemma FieldsOfStripped(j: Json)
    requires ItemShape(j, false)
    ensures ItemData(FieldsOf(j)) == Stripped(j, ItemKeys).fields
  {
    var f := FieldsOf(j);
    var d := ItemData(f);
    forall k ensures k in d <==> k in j.fields && k in ItemKeys {
      ItemDataEntry(f, k);
    }
    StrippedBy(j, ItemKeys, d);
  }

  lemma PatchDataEntry(p: ItemPatch, k: string)
    ensures k in PatchData(p) <==>
      || (k == "name" && p.name.Some?)
      || (k == "description" && p.description.Some?)
      || (k == "price" && p.price.Some?)
      || (k == "quantity" && p.quantity.Some?)
  {
  }

  lemma PatchOfStripped(j: Json)
    requires ItemShape(j, true)
    ensures PatchData(PatchOf(j)) == Stripped(j, ItemKeys).fields
  {
    var p := PatchOf(j);
    var d := PatchData(p);
    forall k ensures k in d <==> k in j.fields && k in ItemKeys {
      PatchDataEntry(p, k);
    }
    StrippedBy(j, ItemKeys, d);
  }

  // ---------------------------------------------------------------------------
  // The Mongoose schemas of both stores declare the same four paths:
  // name {required, trim, maxlength 100}, description {trim, maxlength 500},
  // price {min 0}, quantity {min 0, default 0}.

  function TrimDescription(d: Field<string>): Field<string> {
    if d.Defined? then Defined(Text.Trim(d.value)) else d
  }

  /** The `trim: true` setters, applied to whatever is written. */
  function TrimSetters(f: ItemFields): (g: ItemFields)
    ensures g.price == f.price && g.quantity == f.quantity
    ensures g.name == Text.Trim(f.name)
    ensures f.description.Defined? <==> g.description.Defined?
  {
    f.(name := Text.Trim(f.name), description := TrimDescription(f.description))
  }

  /** What the setters leave: no whitespace at either end of the name or the description. */
  predicate IsTrimmed(f: ItemFields) {
    && Text.Trimmed(f.name)
    && (f.description.Defined? ==> Text.Trimmed(f.description.value))
  }

  /** `default: 0` on quantity, applied when a new document leaves it undefined. */
  function WithDefaults(f: ItemFields): (g: ItemFields)
    ensures g.quantity.Undefined? ==> false
    ensures !f.quantity.Undefined? ==> g == f
  {
    if f.quantity.Undefined? then f.(quantity := Defined(0.0)) else f
  }

  predicate FieldAtMost(d: Field<string>, n: nat) {
    d.Defined? ==> |d.value| <= n
  }

  predicate FieldAtLeast(x: Field<Num>, lo: Num) {
    x.Defined? ==> x.value >= lo
  }

  /** The schema validators: `required` (a non-empty string), `maxlength` and `min`. */
  predicate StoreAccepts(f: ItemFields) {
    && 1 <= |f.name| <= MaxNameLength
    && FieldAtMost(f.description, MaxDescriptionLength)
    && FieldAtLeast(f.price, 0.0)
    && FieldAtLeast(f.quantity, 0.0)
  }

  /** The setters as applied to an update: only the paths the update sets. */
  function TrimPatch(p: ItemPatch): ItemPatch {
    p.(name := if p.name.Some? then Some(Text.Trim(p.name.value)) else None,
       description := if p.description.Some? then Some(Text.Trim(p.description.value)) else None)
  }

  /** `runValidators: true` on an update: the validators of the paths it sets. */
  predicate StoreAcceptsPatch(p: ItemPatch) {
    && (p.name.Some? ==> 1 <= |p.name.value| <= MaxNameLength)
    && (p.description.Some? ==> |p.description.value| <= MaxDescriptionLength)
    && (p.price.Some? ==> p.price.value >= 0.0)
    && (p.quantity.Some? ==> p.quantity.value >= 0.0)
  }

  /** A `$set` of the patch's keys over a stored document's fields. */
  function Patched(f: ItemFields, p: ItemPatch): (g: ItemFields)
    ensures p.name.Some? ==> g.name == p.name.value
    ensures p.name.None? ==> g.name == f.name
    ensures p.description.Some? ==> g.description == Defined(p.description.value)
    ensures p.description.None? ==> g.description == f.description
    ensures p.price.Some? ==> g.price == Defined(p.price.value)
    ensures p.price.None? ==> g.price == f.price
    ensures p.quantity.Some? ==> g.quantity == Defined(p.quantity.value)
    ensures p.quantity.None? ==> g.quantity == f.quantity
  {
    ItemFields(
      if p.name.Some? then p.name.value else f.name,
      if p.description.Some? then Defined(p.description.value) else f.description,
      if p.price.Some? then Defined(p.price.value) else f.price,
      if p.quantity.Some? then Defined(p.quantity.value) else f.quantity)
  }

  // ---------------------------------------------------------------------------
  // Properties of the validator and the schema.

  /** A missing, null or non-string name fails, and so does "", whatever else is sent. */
  lemma NameIsRequired(j: Json)
    requires j.JObject?
    requires !("name" in j.fields && j.fields["name"].JString? && j.fields["name"].s != "")
    ensures ParseItem(j).Err?
  {
  }

  /** Every field but the name may be left out. */
  lemma OnlyNameNeeded(name: string)
    requires 1 <= |name| <= MaxNameLength
    ensures ParseItem(JObject(map["name" := JString(name)]))
         == Ok(ItemFields(name, Undefined, Undefined, Undefined))
  {
    var j := JObject(map["name" := JString(name)]);
    assert Property(j, "description").None? && Property(j, "price").None? && Property(j, "quantity").None?;
  }

  /** Price 0 is refused by the validator even though the store's own bound (`min: 0`) allows it. */
  lemma ZeroPriceRejected(name: string)
    requires 1 <= |name| <= MaxNameLength
    ensures ParseItem(JObject(map["name" := JString(name), "price" := JNumber(0.0)])).Err?
    ensures StoreAccepts(ItemFields(name, Undefined, Defined(0.0), Undefined))
  {
    var j := JObject(map["name" := JString(name), "price" := JNumber(0.0)]);
    assert !PriceOk(Property(j, "price"));
  }

  /** The empty update passes `.partial()` and sets nothing. */
  lemma EmptyPatchAccepted(f: ItemFields)
    ensures ParseItemPatch(JObject(map[])) == Ok(ItemPatch(None, None, None, None))
    ensures Patched(f, ItemPatch(None, None, None, None)) == f
  {
  }

  /** What zod's output satisfies: the validator's bounds, and no null anywhere. */
  predicate WithinBounds(f: ItemFields) {
    && 1 <= |f.name| <= MaxNameLength
    && (f.description.Defined? ==> |f.description.value| <= MaxDescriptionLength)
    && (f.price.Defined? ==> f.price.value > 0.0)
    && (f.quantity.Defined? ==> IsInteger(f.quantity.value) && f.quantity.value >= 0.0)
    && !f.description.Null? && !f.price.Null? && !f.quantity.Null?
  }

  lemma ParsedWithinBounds(j: Json)
    requires ParseItem(j).Ok?
    ensures WithinBounds(ParseItem(j).value)
  {
  }

  /** Within the validator's bounds, the store refuses only a name that trims to "". */
  lemma {:induction false} BoundedStoreAccepted(f: ItemFields)
    requires WithinBounds(f)
    ensures StoreAccepts(WithDefaults(TrimSetters(f))) <==> Text.Trim(f.name) != ""
  {
    var g := WithDefaults(TrimSetters(f));
    assert g.name == Text.Trim(f.name) && |g.name| <= |f.name|;
    if f.description.Defined? {
      assert |Text.Trim(f.description.value)| <= |f.description.value|;
    }
  }

  /** What zod lets through can only be refused by the store for a name that trims to "". */
  lemma ValidatedItemStoreAccepted(j: Json)
    requires ParseItem(j).Ok?
    ensures var g := WithDefaults(TrimSetters(ParseItem(j).value));
      StoreAccepts(g) <==> Text.Trim(ParseItem(j).value.name) != ""
  {
    ParsedWithinBounds(j);
    BoundedStoreAccepted(ParseItem(j).value);
  }

  /** The same for an update: only a name that trims to "" is refused. */
  lemma {:induction false} ValidatedPatchStoreAccepted(j: Json)
    requires ParseItemPatch(j).Ok?
    ensures var p := ParseItemPatch(j).value;
      StoreAcceptsPatch(TrimPatch(p)) <==> (p.name.Some? ==> Text.Trim(p.name.value) != "")
  {
    var p := ParseItemPatch(j).value;
    if p.description.Some? {
      assert |Text.Trim(p.description.value)| <= |p.description.value|;
    }
    if p.name.Some? {
      assert |Text.Trim(p.name.value)| <= |p.name.value|;
    }
  }

  /** Trim setters leave trimmed fields trimmed; applying them twice is applying them once. */
  lemma TrimSettersTrim(f: ItemFields)
    ensures IsTrimmed(TrimSetters(f))
    ensures TrimSetters(TrimSetters(f)) == TrimSetters(f)
  {
    Text.TrimIdempotent(f.name);
    if f.description.Defined? {
      Text.TrimIdempotent(f.description.value);
    }
  }

  /** The quantity default does not touch the trimmed paths. */
  lemma DefaultsKeepTrimmed(f: ItemFields)
    requires IsTrimmed(f)
    ensures IsTrimmed(WithDefaults(f)) && !WithDefaults(f).quantity.Undefined?
  {
  }

  lemma TrimPatchTrims(f: ItemFields, p: ItemPatch)
    requires IsTrimmed(f)
    ensures IsTrimmed(Patched(f, TrimPatch(p)))
  {
    if p.name.Some? { Text.TrimIdempotent(p.name.value); }
    if p.description.Some? { Text.TrimIdempotent(p.description.value); }
  }
}
