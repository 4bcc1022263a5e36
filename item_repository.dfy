/** `ItemRepository`: the primary's repository over the `Item` collection. Every read and
    write goes through the collection; results are handed out as domain entities. */
module ItemRepositories {
  import opened Wrappers
  import opened JsonValues
  import opened Items
  import opened ObjectIds
  import opened ItemStore
  import Text

  datatype ItemEntity = ItemEntity(
    id: string,
    name: string,
    description: Field<string>,
    price: Field<Num>,
    quantity: Field<Num>,
    createdAt: nat,
    updatedAt: nat)

  function EntityFields(e: ItemEntity): ItemFields {
    ItemFields(e.name, e.description, e.price, e.quantity)
  }

  /** `toDomainEntity`: every field copied, the id as its string form. */
  function ToDomainEntity(d: ItemDoc): (e: ItemEntity)
    ensures e.id == IdString(d.id) && |e.id| >= IdLength
    ensures ValidId(e.id) || d.id >= Pow16(IdLength)
    ensures forall i :: 0 <= i < |e.id| ==> IsHexDigit(e.id[i])
    ensures ParseHex(e.id) == d.id
    ensures EntityFields(e) == d.fields
    ensures e.createdAt == d.createdAt && e.updatedAt == d.updatedAt
  {
    ParseHexOfHex(d.id, IdLength);
    IdStringValid(d.id);
    ItemEntity(IdString(d.id), d.fields.name, d.fields.description, d.fields.price, d.fields.quantity,
               d.createdAt, d.updatedAt)
  }

  function ToEntities(docs: seq<ItemDoc>): (r: seq<ItemEntity>)
    ensures |r| == |docs| && forall i :: 0 <= i < |r| ==> r[i] == ToDomainEntity(docs[i])
  {
    if docs == [] then [] else [ToDomainEntity(docs[0])] + ToEntities(docs[1..])
  }

  function ToEntity(d: Option<ItemDoc>): Option<ItemEntity> {
    if d.Some? then Some(ToDomainEntity(d.value)) else None
  }

  /** Distinct documents of a well-formed collection give entities with distinct ids. */
  lemma EntityIdsDistinct(s: ItemState, i: nat, j: nat)
    requires WellFormed(s) && i < j < |s.docs|
    ensures ToDomainEntity(s.docs[i]).id != ToDomainEntity(s.docs[j]).id
  {
    IdStringInjective(s.docs[i].id, s.docs[j].id);
  }

  class ItemRepository {
    const items: ItemCollection

    constructor (items: ItemCollection)
      ensures this.items == items
    {
      this.items := items;
    }

    /** `findAll`: every item, newest first. */
    method FindAll() returns (r: seq<ItemEntity>)
      ensures r == ToEntities(Find(items.state))
    {
      r := ToEntities(Find(items.state));
    }

    /** `findById`: "Invalid item ID format" for a malformed id, else the item or null. */
    method FindById(id: string) returns (r: Result<Option<ItemEntity>, ItemError>)
      ensures !ValidId(id) <==> r == Err(InvalidIdFormat)
      ensures r.Ok? ==> r.value == ToEntity(ItemStore.FindById(items.state, id))
    {
      if !ValidId(id) {
        return Err(InvalidIdFormat);
      }
      r := Ok(ToEntity(ItemStore.FindById(items.state, id)));
    }

    /** `findByName`: the newest item named as the trimmed query, or null. */
    method FindByName(name: string) returns (r: Option<ItemEntity>)
      requires items.Valid()
      ensures r == ToEntity(FindOneByName(items.state, name))
      ensures r.None? <==> forall d :: d in items.state.docs ==> d.fields.name != Text.Trim(name)
      ensures r.Some? ==>
        && r.value.name == Text.Trim(name)
        && (exists d :: d in items.state.docs && r.value == ToDomainEntity(d))
        && forall e :: e in items.state.docs && e.fields.name == Text.Trim(name) ==> e.createdAt <= r.value.createdAt
    {
      FindOneByNameNewest(items.state, name);
      r := ToEntity(FindOneByName(items.state, name));
    }

    /** `create`: zod first ("Validation error: ..." and nothing stored), then the save. */
    method Create(itemData: Json) returns (r: Result<ItemEntity, ItemError>)
      requires items.Valid()
      modifies items
      ensures items.Valid()
      ensures items.state == Created(old(items.state), itemData).0
      ensures r.Err? <==> Created(old(items.state), itemData).1.Err?
      ensures r.Err? ==> r.error == Created(old(items.state), itemData).1.error && items.state == old(items.state)
      ensures r.Ok? ==> r.value == ToDomainEntity(Created(old(items.state), itemData).1.value)
      ensures r.Ok? ==> ItemStore.FindById(old(items.state), r.value.id).None?
      ensures r.Ok? ==> EntityFields(r.value) == WithDefaults(TrimSetters(ParseItem(itemData).value))
    {
      var validation := ParseItem(itemData);
      if validation.Err? {
        return Err(ValidationError(validation.error));
      }
      SavedSpec(items.state, validation.value);
      var (t, saved) := Saved(items.state, validation.value);
      items.state := t;
      if saved.Err? {
        return Err(saved.error);
      }
      r := Ok(ToDomainEntity(saved.value));
    }

    /** `update`: the id check, then zod's partial schema, then `findByIdAndUpdate`. */
    method Update(id: string, updateData: Json) returns (r: Result<Option<ItemEntity>, ItemError>)
      requires items.Valid()
      modifies items
      ensures items.Valid()
      ensures items.state == Updated(old(items.state), id, updateData).0
      ensures !ValidId(id) ==> r == Err(InvalidIdFormat)
      ensures r.Err? ==> items.state == old(items.state)
      ensures r.Err? <==> Updated(old(items.state), id, updateData).1.Err?
      ensures r.Err? ==> r.error == Updated(old(items.state), id, updateData).1.error
      ensures r.Ok? ==> r.value == ToEntity(Updated(old(items.state), id, updateData).1.value)
      ensures r.Ok? && r.value.None? ==> items.state == old(items.state)
      ensures r.Ok? && r.value.Some? ==> r.value.value.id == id
    {
      if !ValidId(id) {
        return Err(InvalidIdFormat);
      }
      var validation := ParseItemPatch(updateData);
      if validation.Err? {
        return Err(ValidationError(validation.error));
      }
      UpdatedByIdSpec(items.state, id, validation.value);
      var (t, updated) := UpdatedById(items.state, id, validation.value);
      items.state := t;
      if updated.Err? {
        return Err(updated.error);
      }
      r := Ok(ToEntity(updated.value));
    }

    /** `delete`: the id check, then `findByIdAndDelete`. */
    method Delete(id: string) returns (r: Result<Option<ItemEntity>, ItemError>)
      requires items.Valid()
      modifies items
      ensures items.Valid()
      ensures items.state == Deleted(old(items.state), id).0
      ensures r.Err? <==> !ValidId(id)
      ensures r.Err? ==> r.error == InvalidIdFormat
      ensures r.Err? ==> items.state == old(items.state)
      ensures r.Ok? ==> r.value == ToEntity(ItemStore.FindById(old(items.state), id))
      ensures r.Ok? ==> ItemStore.FindById(items.state, id).None?
    {
      if !ValidId(id) {
        return Err(InvalidIdFormat);
      }
      DeletedByIdSpec(items.state, id);
      var (t, deleted) := DeletedById(items.state, id);
      items.state := t;
      r := Ok(ToEntity(deleted));
    }
  }
}
