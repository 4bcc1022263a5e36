/** The primary `items` collection as the Mongoose model `Item` keeps it, and the six
    reads and writes the repository and the older item service make on it. Documents are
    kept in insertion order; ids and `createdAt` come from counters that only grow, so a
    later document is always a newer one. */
module ItemStore {
  import opened Wrappers
  import opened JsonValues
  import opened Validation
  import opened Items
  import opened ObjectIds
  import Text

  datatype ItemDoc = ItemDoc(id: nat, fields: ItemFields, createdAt: nat, updatedAt: nat)

  datatype ItemState = ItemState(docs: seq<ItemDoc>, nextId: nat, clock: nat)

  /** What the repository, the service and the use cases throw. */
  datatype ItemError =
    | InvalidIdFormat
    | ValidationError(issues: seq<Issue>)
    | StoreRejected
    | ItemNotFound

  function Message(e: ItemError): string {
    match e
    case InvalidIdFormat => "Invalid item ID format"
    case ValidationError(issues) => "Validation error: " + DescribeIssues(issues)
    case StoreRejected => "Item validation failed"
    case ItemNotFound => "Item not found"
  }

  /** What the schema lets a stored document hold. */
  predicate Stored(f: ItemFields) {
    StoreAccepts(f) && IsTrimmed(f) && !f.quantity.Undefined?
  }

  predicate DocOk(d: ItemDoc, s: ItemState) {
    d.id < s.nextId && d.createdAt <= d.updatedAt < s.clock && Stored(d.fields)
  }

  /** Every document is one the schema accepts, and the collection is in creation order. */
  predicate WellFormed(s: ItemState) {
    && (forall i :: 0 <= i < |s.docs| ==> DocOk(s.docs[i], s))
    && (forall i, j :: 0 <= i < j < |s.docs| ==>
          s.docs[i].id < s.docs[j].id && s.docs[i].createdAt < s.docs[j].createdAt)
  }

  const Empty: ItemState := ItemState([], 0, 0)

  // ---------------------------------------------------------------------------
  // Queries.

  /** `Item.find().sort({ createdAt: -1 })` */
  function Find(s: ItemState): seq<ItemDoc> {
    Reversed(s.docs)
  }

  function Reversed(docs: seq<ItemDoc>): (r: seq<ItemDoc>)
    ensures |r| == |docs|
    ensures forall i :: 0 <= i < |r| ==> r[i] == docs[|docs| - 1 - i]
  {
    if docs == [] then [] else [docs[|docs| - 1]] + Reversed(docs[..|docs| - 1])
  }

  /** Position of the document whose id prints as `id`, searching from the front. */
  function IndexOfId(docs: seq<ItemDoc>, id: string): (r: Option<nat>)
    ensures r.Some? ==> r.value < |docs| && IdString(docs[r.value].id) == id
    ensures r.None? <==> forall i :: 0 <= i < |docs| ==> IdString(docs[i].id) != id
  {
    if docs == [] then None
    else if IdString(docs[0].id) == id then Some(0)
    else match IndexOfId(docs[1..], id)
      case None => None
      case Some(k) => Some(k + 1)
  }

  /** `Item.findById(id)` */
  function FindById(s: ItemState, id: string): Option<ItemDoc> {
    match IndexOfId(s.docs, id)
    case None => None
    case Some(i) => Some(s.docs[i])
  }

  /** Position of the last document named exactly `name`. */
  function LastNamed(docs: seq<ItemDoc>, name: string): (r: Option<nat>)
    ensures r.Some? ==> r.value < |docs| && docs[r.value].fields.name == name
    ensures r.Some? ==> forall j :: r.value < j < |docs| ==> docs[j].fields.name != name
    ensures r.None? <==> forall j :: 0 <= j < |docs| ==> docs[j].fields.name != name
  {
    if docs == [] then None
    else if docs[|docs| - 1].fields.name == name then Some(|docs| - 1)
    else LastNamed(docs[..|docs| - 1], name)
  }

  /** `Item.findOne({ name }).sort({ createdAt: -1 })`. Mongoose casts the filter value through
      the schema's `trim` setter, so the query is for the trimmed name. */
  function FindOneByName(s: ItemState, name: string): Option<ItemDoc> {
    match LastNamed(s.docs, Text.Trim(name))
    case None => None
    case Some(i) => Some(s.docs[i])
  }

  // ---------------------------------------------------------------------------
  // Writes. Each returns the new state and what the call resolves to.

  /** `new Item(fields).save()`: setters, the quantity default, then the validators. */
  function Saved(s: ItemState, f: ItemFields): (ItemState, Result<ItemDoc, ItemError>) {
    var g := WithDefaults(TrimSetters(f));
    if !StoreAccepts(g) then (s, Err(StoreRejected))
    else
      var d := ItemDoc(s.nextId, g, s.clock, s.clock);
      (ItemState(s.docs + [d], s.nextId + 1, s.clock + 1), Ok(d))
  }

  /** `Item.findByIdAndUpdate(id, patch, { new: true, runValidators: true })`: the update
      validators check the set paths before the query runs; a missing id resolves to null. */
  function UpdatedById(s: ItemState, id: string, p: ItemPatch): (ItemState, Result<Option<ItemDoc>, ItemError>) {
    var q := TrimPatch(p);
    if !StoreAcceptsPatch(q) then (s, Err(StoreRejected))
    else match IndexOfId(s.docs, id)
      case None => (s, Ok(None))
      case Some(i) =>
        var d := s.docs[i].(fields := Patched(s.docs[i].fields, q), updatedAt := s.clock);
        (s.(docs := s.docs[i := d], clock := s.clock + 1), Ok(Some(d)))
  }

  function Without(docs: seq<ItemDoc>, i: nat): (r: seq<ItemDoc>)
    requires i < |docs|
    ensures |r| == |docs| - 1
    ensures forall k :: 0 <= k < |r| ==> r[k] == if k < i then docs[k] else docs[k + 1]
  {
    docs[..i] + docs[i + 1..]
  }

  /** `Item.findByIdAndDelete(id)`: the removed document, or null. */
  function DeletedById(s: ItemState, id: string): (ItemState, Option<ItemDoc>) {
    match IndexOfId(s.docs, id)
    case None => (s, None)
    case Some(i) => (s.(docs := Without(s.docs, i)), Some(s.docs[i]))
  }

  // ---------------------------------------------------------------------------
  // The operations as the repository and the service run them: the id check, then
  // zod, then the store.

  function Created(s: ItemState, data: Json): (ItemState, Result<ItemDoc, ItemError>) {
    match ParseItem(data)
    case Err(issues) => (s, Err(ValidationError(issues)))
    case Ok(f) => Saved(s, f)
  }

  function Lookup(s: ItemState, id: string): Result<Option<ItemDoc>, ItemError> {
    if !ValidId(id) then Err(InvalidIdFormat) else Ok(FindById(s, id))
  }

  function Updated(s: ItemState, id: string, data: Json): (ItemState, Result<Option<ItemDoc>, ItemError>) {
    if !ValidId(id) then (s, Err(InvalidIdFormat))
    else match ParseItemPatch(data)
      case Err(issues) => (s, Err(ValidationError(issues)))
      case Ok(p) => UpdatedById(s, id, p)
  }

  function Deleted(s: ItemState, id: string): (ItemState, Result<Option<ItemDoc>, ItemError>) {
    if !ValidId(id) then (s, Err(InvalidIdFormat))
    else var (t, r) := DeletedById(s, id); (t, Ok(r))
  }

  /** The `Item` model's collection: one shared, mutable store that the repository and
      the item service both read and write. */
  class ItemCollection {
    var state: ItemState

    ghost predicate Valid()
      reads this
    {
      WellFormed(state)
    }

    constructor ()
      ensures state == Empty && Valid()
    {
      state := Empty;
    }
  }

  // ---------------------------------------------------------------------------
  // Properties.

  lemma EmptyWellFormed()
    ensures WellFormed(Empty) && Find(Empty) == []
  {
  }

  /** `find` lists every document once, newest first. */
  lemma FindNewestFirst(s: ItemState)
    requires WellFormed(s)
    ensures |Find(s)| == |s.docs| && multiset(Find(s)) == multiset(s.docs)
    ensures forall i, j :: 0 <= i < j < |Find(s)| ==> Find(s)[i].createdAt > Find(s)[j].createdAt
  {
    ReversedMultiset(s.docs);
  }

  lemma {:induction false} ReversedMultiset(docs: seq<ItemDoc>)
    ensures multiset(Reversed(docs)) == multiset(docs)
    decreases |docs|
  {
    if docs != [] {
      var front := docs[..|docs| - 1];
      ReversedMultiset(front);
      assert docs == front + [docs[|docs| - 1]];
    }
  }

  /** Ids are unique, so the document found by id is the only one with that id. */
  lemma FindByIdUnique(s: ItemState, id: string, i: nat)
    requires WellFormed(s) && i < |s.docs| && IdString(s.docs[i].id) == id
    ensures FindById(s, id) == Some(s.docs[i])
  {
    var k := IndexOfId(s.docs, id).value;
    if k != i {
      IdStringInjective(s.docs[k].id, s.docs[i].id);
    }
  }

  /** `findOne` by name picks, among the documents whose stored name is the trimmed query,
      the newest. */
  lemma FindOneByNameNewest(s: ItemState, name: string)
    requires WellFormed(s)
    ensures FindOneByName(s, name).None? <==> forall d :: d in s.docs ==> d.fields.name != Text.Trim(name)
    ensures FindOneByName(s, name).Some? ==>
      var d := FindOneByName(s, name).value;
      && d in s.docs && d.fields.name == Text.Trim(name)
      && forall e :: e in s.docs && e.fields.name == Text.Trim(name) && e != d ==> e.createdAt < d.createdAt
  {
    if FindOneByName(s, name).None? {
      forall d | d in s.docs ensures d.fields.name != Text.Trim(name) {
        var j :| 0 <= j < |s.docs| && s.docs[j] == d;
      }
    } else {
      var i := LastNamed(s.docs, Text.Trim(name)).value;
      forall e | e in s.docs && e.fields.name == Text.Trim(name) && e != s.docs[i]
        ensures e.createdAt < s.docs[i].createdAt
      {
        var j :| 0 <= j < |s.docs| && s.docs[j] == e;
      }
    }
  }

  /** Whitespace around the query does not change what `findOne` by name finds: a search for
      "Widget " finds the item named "Widget". */
  lemma FindOneByNamePadding(s: ItemState, p: string, name: string, q: string)
    requires Text.AllWhitespace(p) && Text.AllWhitespace(q)
    ensures FindOneByName(s, p + name + q) == FindOneByName(s, name)
  {
    Text.TrimIgnoresPadding(p, name, q);
  }

  /** Saving either changes nothing or appends one new document with a fresh id,
      holding the trimmed, defaulted fields; the result is well formed. */
  lemma SavedSpec(s: ItemState, f: ItemFields)
    requires WellFormed(s)
    ensures var (t, r) := Saved(s, f);
      && WellFormed(t)
      && (r.Err? <==> !StoreAccepts(WithDefaults(TrimSetters(f))))
      && (r.Err? ==> t == s)
      && (r.Ok? ==>
            && t.docs == s.docs + [r.value]
            && r.value.fields == WithDefaults(TrimSetters(f))
            && FindById(s, IdString(r.value.id)).None?
            && FindById(t, IdString(r.value.id)) == Some(r.value))
  {
    if Saved(s, f).1.Ok? {
      SavedOk(s, f);
    }
  }

  lemma SavedOk(s: ItemState, f: ItemFields)
    requires WellFormed(s) && StoreAccepts(WithDefaults(TrimSetters(f)))
    ensures var d := ItemDoc(s.nextId, WithDefaults(TrimSetters(f)), s.clock, s.clock);
      var t := ItemState(s.docs + [d], s.nextId + 1, s.clock + 1);
      && WellFormed(t)
      && FindById(s, IdString(d.id)).None?
      && FindById(t, IdString(d.id)) == Some(d)
  {
    var d := ItemDoc(s.nextId, WithDefaults(TrimSetters(f)), s.clock, s.clock);
    var t := ItemState(s.docs + [d], s.nextId + 1, s.clock + 1);
    assert Stored(d.fields) by {
      TrimSettersTrim(f);
      DefaultsKeepTrimmed(TrimSetters(f));
    }
    AppendedWellFormed(s, d);
    forall i | 0 <= i < |s.docs| ensures IdString(s.docs[i].id) != IdString(d.id) {
      IdStringInjective(s.docs[i].id, d.id);
    }
    FindByIdUnique(t, IdString(d.id), |s.docs|);
  }

  lemma AppendedWellFormed(s: ItemState, d: ItemDoc)
    requires WellFormed(s)
    requires d.id == s.nextId && d.createdAt == s.clock && d.updatedAt == s.clock && Stored(d.fields)
    ensures WellFormed(ItemState(s.docs + [d], s.nextId + 1, s.clock + 1))
  {
    var t := ItemState(s.docs + [d], s.nextId + 1, s.clock + 1);
    forall i | 0 <= i < |t.docs| ensures DocOk(t.docs[i], t) {
      if i < |s.docs| {
        assert t.docs[i] == s.docs[i] && DocOk(s.docs[i], s);
      }
    }
  }

  /** An update changes only the document with that id (or nothing), keeps its id and
      creation time, sets exactly the patch's paths, and keeps the collection well formed. */
  lemma UpdatedByIdSpec(s: ItemState, id: string, p: ItemPatch)
    requires WellFormed(s)
    ensures var (t, r) := UpdatedById(s, id, p);
      && WellFormed(t)
      && (r.Err? <==> !StoreAcceptsPatch(TrimPatch(p)))
      && (r.Err? || r.value.None? ==> t == s)
      && (r.Ok? && r.value.None? <==> StoreAcceptsPatch(TrimPatch(p)) && FindById(s, id).None?)
      && (r.Ok? && r.value.Some? ==>
            var before := FindById(s, id).value;
            && r.value.value.id == before.id && r.value.value.createdAt == before.createdAt
            && r.value.value.fields == Patched(before.fields, TrimPatch(p))
            && FindById(t, id) == r.value
            && |t.docs| == |s.docs|
            && forall k :: 0 <= k < |s.docs| && IdString(s.docs[k].id) != id ==> t.docs[k] == s.docs[k])
  {
    var (t, r) := UpdatedById(s, id, p);
    if r.Ok? && r.value.Some? {
      var i := IndexOfId(s.docs, id).value;
      var d := r.value.value;
      assert d == s.docs[i].(fields := Patched(s.docs[i].fields, TrimPatch(p)), updatedAt := s.clock);
      assert t == s.(docs := s.docs[i := d], clock := s.clock + 1);
      assert Stored(d.fields) by {
        TrimPatchTrims(s.docs[i].fields, p);
        PatchedStored(s.docs[i].fields, TrimPatch(p));
      }
      RewrittenWellFormed(s, i, d);
      FindByIdUnique(t, id, i);
    }
  }

  lemma PatchedStored(f: ItemFields, q: ItemPatch)
    requires Stored(f) && StoreAcceptsPatch(q) && IsTrimmed(Patched(f, q))
    ensures Stored(Patched(f, q))
  {
  }

  lemma RewrittenWellFormed(s: ItemState, i: nat, d: ItemDoc)
    requires WellFormed(s) && i < |s.docs|
    requires d.id == s.docs[i].id && d.createdAt == s.docs[i].createdAt
    requires d.updatedAt == s.clock && Stored(d.fields)
    ensures WellFormed(s.(docs := s.docs[i := d], clock := s.clock + 1))
  {
    var t := s.(docs := s.docs[i := d], clock := s.clock + 1);
    forall k | 0 <= k < |t.docs| ensures DocOk(t.docs[k], t) {
      if k != i {
        assert t.docs[k] == s.docs[k] && DocOk(s.docs[k], s);
      }
    }
  }

  /** A delete resolves to the document `findById` would have found, which is gone
      afterwards; the collection stays well formed. */
  lemma DeletedByIdSpec(s: ItemState, id: string)
    requires WellFormed(s)
    ensures var (t, r) := DeletedById(s, id);
      && WellFormed(t)
      && r == FindById(s, id)
      && (r.None? ==> t == s)
      && FindById(t, id).None?
  {
    var (t, r) := DeletedById(s, id);
    if r.Some? {
      var i := IndexOfId(s.docs, id).value;
      WithoutWellFormed(s, i);
      WithoutGone(s, i);
    }
  }

  lemma WithoutWellFormed(s: ItemState, i: nat)
    requires WellFormed(s) && i < |s.docs|
    ensures WellFormed(s.(docs := Without(s.docs, i)))
  {
  }

  /** Ids are unique, so removing the document at `i` leaves none with its id. */
  lemma WithoutGone(s: ItemState, i: nat)
    requires WellFormed(s) && i < |s.docs|
    ensures IndexOfId(Without(s.docs, i), IdString(s.docs[i].id)).None?
  {
    var t := Without(s.docs, i);
    forall k | 0 <= k < |t| ensures IdString(t[k].id) != IdString(s.docs[i].id) {
      var j := if k < i then k else k + 1;
      assert t[k] == s.docs[j];
      IdStringInjective(s.docs[j].id, s.docs[i].id);
    }
  }

  /** A delete removes that one document and keeps every other, in order. */
  lemma DeletedKeepsOthers(s: ItemState, id: string)
    ensures var (t, r) := DeletedById(s, id);
      && (r.Some? ==> multiset(t.docs) + multiset{r.value} == multiset(s.docs))
      && forall d :: d in s.docs && IdString(d.id) != id ==> d in t.docs
  {
    var (t, r) := DeletedById(s, id);
    if r.Some? {
      var i := IndexOfId(s.docs, id).value;
      assert t.docs == s.docs[..i] + s.docs[i + 1..];
      assert s.docs == s.docs[..i] + [s.docs[i]] + s.docs[i + 1..];
      assert multiset(t.docs) + multiset{r.value} == multiset(s.docs);
      forall d | d in s.docs && IdString(d.id) != id ensures d in t.docs {
        assert d in multiset(s.docs) && d != r.value;
      }
    }
  }

  /** A create leaves what `findById` finds for every other id as it was. */
  lemma SavedKeepsOthers(s: ItemState, f: ItemFields, other: string)
    requires WellFormed(s)
    requires Saved(s, f).1.Ok? ==> other != IdString(Saved(s, f).1.value.id)
    ensures FindById(Saved(s, f).0, other) == FindById(s, other)
  {
    var (t, r) := Saved(s, f);
    if r.Ok? {
      SavedSpec(s, f);
      match IndexOfId(t.docs, other)
      case Some(k) =>
        assert k < |s.docs| && t.docs[k] == s.docs[k];
        FindByIdUnique(s, other, k);
      case None =>
        assert forall i :: 0 <= i < |s.docs| ==> t.docs[i] == s.docs[i];
    }
  }

  /** An update leaves what `findById` finds for every other id as it was. */
  lemma UpdatedByIdKeepsOthers(s: ItemState, id: string, p: ItemPatch, other: string)
    requires WellFormed(s) && other != id
    ensures FindById(UpdatedById(s, id, p).0, other) == FindById(s, other)
  {
    var (t, r) := UpdatedById(s, id, p);
    if r.Ok? && r.value.Some? {
      var i := IndexOfId(s.docs, id).value;
      var d := r.value.value;
      assert t.docs == s.docs[i := d] && d.id == s.docs[i].id;
      match IndexOfId(t.docs, other)
      case Some(k) =>
        assert k != i && t.docs[k] == s.docs[k];
        FindByIdUnique(s, other, k);
      case None =>
        assert forall k :: 0 <= k < |s.docs| ==> t.docs[k].id == s.docs[k].id;
    }
  }

  /** A delete leaves what `findById` finds for every other id as it was. */
  lemma DeletedByIdKeepsOthers(s: ItemState, id: string, other: string)
    requires other != id
    ensures FindById(DeletedById(s, id).0, other) == FindById(s, other)
  {
    match IndexOfId(s.docs, id)
    case None =>
    case Some(i) =>
      assert DeletedById(s, id).0 == s.(docs := Without(s.docs, i));
      WithoutFindById(s, i, other);
  }

  lemma WithoutFindById(s: ItemState, i: nat, other: string)
    requires i < |s.docs| && IdString(s.docs[i].id) != other
    ensures FindById(s.(docs := Without(s.docs, i)), other) == FindById(s, other)
  {
    WithoutIndexOf(s.docs, i, other);
  }

  /** Removing a document with another id leaves the first match for `other` the same
      document, wherever it now sits. */
  lemma {:induction false} WithoutIndexOf(docs: seq<ItemDoc>, i: nat, other: string)
    requires i < |docs| && IdString(docs[i].id) != other
    ensures IndexOfId(Without(docs, i), other).None? <==> IndexOfId(docs, other).None?
    ensures IndexOfId(docs, other).Some? ==>
      Without(docs, i)[IndexOfId(Without(docs, i), other).value] == docs[IndexOfId(docs, other).value]
    decreases i
  {
    var w := Without(docs, i);
    if i == 0 {
      assert w == docs[1..];
    } else if IdString(docs[0].id) != other {
      var w' := Without(docs[1..], i - 1);
      assert w[0] == docs[0] && w[1..] == w';
      WithoutIndexOf(docs[1..], i - 1, other);
    } else {
      assert w[0] == docs[0];
    }
  }

  /** A validation failure or a malformed id leaves the collection as it was. */
  lemma RejectedRequestsChangeNothing(s: ItemState, id: string, data: Json)
    ensures Created(s, data).1.Err? ==> Created(s, data).0 == s
    ensures !ValidId(id) ==> Updated(s, id, data) == (s, Err(InvalidIdFormat))
    ensures !ValidId(id) ==> Deleted(s, id) == (s, Err(InvalidIdFormat))
    ensures !ValidId(id) ==> Lookup(s, id) == Err(InvalidIdFormat)
    ensures ValidId(id) && ParseItemPatch(data).Err? ==>
      Updated(s, id, data) == (s, Err(ValidationError(ParseItemPatch(data).error)))
    ensures ParseItem(data).Err? ==> Created(s, data) == (s, Err(ValidationError(ParseItem(data).error)))
  {
  }

  /** A validation error's message starts with "Validation error: ". */
  lemma ValidationMessage(issues: seq<Issue>)
    ensures Text.StartsWith(Message(ValidationError(issues)), "Validation error: ")
  {
    var m := Message(ValidationError(issues));
    assert m[..|"Validation error: "|] == "Validation error: ";
  }
}
