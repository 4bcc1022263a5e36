/** The older functional item service: the same steps as the repository over the same
    `Item` collection, returning the stored documents themselves. */
module ItemService {
  import opened Wrappers
  import opened JsonValues
  import opened Items
  import opened ObjectIds
  import opened ItemStore
  import Text

  /** `getAllItems`: every document, newest first. */
  method GetAllItems(items: ItemCollection) returns (r: seq<ItemDoc>)
    requires items.Valid()
    ensures multiset(r) == multiset(items.state.docs)
    ensures forall i, j :: 0 <= i < j < |r| ==> r[i].createdAt > r[j].createdAt
  {
    FindNewestFirst(items.state);
    r := Find(items.state);
  }

  /** `getItemByName`: the newest document named as the trimmed query, or null. */
  method GetItemByName(items: ItemCollection, name: string) returns (r: Option<ItemDoc>)
    requires items.Valid()
    ensures r.None? <==> forall d :: d in items.state.docs ==> d.fields.name != Text.Trim(name)
    ensures r.Some? ==> r.value in items.state.docs && r.value.fields.name == Text.Trim(name)
    ensures r.Some? ==> forall e :: e in items.state.docs && e.fields.name == Text.Trim(name) && e != r.value ==>
      e.createdAt < r.value.createdAt
  {
    FindOneByNameNewest(items.state, name);
    r := FindOneByName(items.state, name);
  }

  /** `getItemById`: "Invalid item ID format" for a malformed id, else the document or null. */
  method GetItemById(items: ItemCollection, id: string) returns (r: Result<Option<ItemDoc>, ItemError>)
    ensures !ValidId(id) <==> r == Err(InvalidIdFormat)
    ensures r.Ok? ==> r.value == FindById(items.state, id)
    ensures r.Ok? && r.value.Some? ==> r.value.value in items.state.docs && IdString(r.value.value.id) == id
  {
    if !ValidId(id) {
      return Err(InvalidIdFormat);
    }
    r := Ok(FindById(items.state, id));
  }

  /** `createItem`: "Validation error: ..." and nothing saved, or the saved document. */
  method CreateItem(items: ItemCollection, itemData: Json) returns (r: Result<ItemDoc, ItemError>)
    requires items.Valid()
    modifies items
    ensures items.Valid()
    ensures (items.state, r) == Created(old(items.state), itemData)
    ensures ParseItem(itemData).Err? ==> r == Err(ValidationError(ParseItem(itemData).error))
    ensures r.Err? ==> items.state == old(items.state)
    ensures r.Ok? ==> items.state.docs == old(items.state.docs) + [r.value]
  {
    var validation := ParseItem(itemData);
    if validation.Err? {
      return Err(ValidationError(validation.error));
    }
    SavedSpec(items.state, validation.value);
    var (t, saved) := Saved(items.state, validation.value);
    items.state := t;
    r := saved;
  }

  /** `updateItem`: the id check and zod's partial schema come before the store is touched. */
  method UpdateItem(items: ItemCollection, id: string, updateData: Json) returns (r: Result<Option<ItemDoc>, ItemError>)
    requires items.Valid()
    modifies items
    ensures items.Valid()
    ensures (items.state, r) == Updated(old(items.state), id, updateData)
    ensures !ValidId(id) ==> r == Err(InvalidIdFormat)
    ensures ValidId(id) && ParseItemPatch(updateData).Err? ==>
      r == Err(ValidationError(ParseItemPatch(updateData).error))
    ensures r.Err? || r.value.None? ==> items.state == old(items.state)
  {
    if !ValidId(id) {
      return Err(InvalidIdFormat);
    }
    var validation := ParseItemPatch(updateData);
    if validation.Err? {
      return Err(ValidationError(validation.error));
    }
    UpdatedByIdSpec(items.state, id, validation.value);
    var (t, updated) := UpdatedById(items.state, id, validation.value);
    items.state := t;
    r := updated;
  }

  /** `deleteItem`: the removed document or null. */
  method DeleteItem(items: ItemCollection, id: string) returns (r: Result<Option<ItemDoc>, ItemError>)
    requires items.Valid()
    modifies items
    ensures items.Valid()
    ensures (items.state, r) == Deleted(old(items.state), id)
    ensures !ValidId(id) <==> r == Err(InvalidIdFormat)
    ensures r.Ok? ==> r.value == FindById(old(items.state), id) && FindById(items.state, id).None?
  {
    if !ValidId(id) {
      return Err(InvalidIdFormat);
    }
    DeletedByIdSpec(items.state, id);
    var (t, deleted) := DeletedById(items.state, id);
    items.state := t;
    r := Ok(deleted);
  }
}
