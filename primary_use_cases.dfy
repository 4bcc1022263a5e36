/** The primary's use cases. The three writes change the repository first and publish
    one event after; because the publisher never fails, what they return depends only on
    the collection and the request, never on Kafka. The two reads are pure. */
module PrimaryUseCases {
  import opened Wrappers
  import opened JsonValues
  import opened Items
  import opened ObjectIds
  import opened ItemStore
  import opened ItemRepositories
  import opened ItemEvents
  import opened ProducerKafka
  import opened EventPublisher
  import Text

  /** The `{ name, description, price, quantity }` record the use cases publish. */
  function EventData(e: ItemEntity): map<string, Json> {
    ItemData(EntityFields(e))
  }

  /** What `CreateItemUseCase.execute` returns or throws. */
  function CreateOutcome(s: ItemState, itemData: Json): Result<ItemEntity, ItemError> {
    match Created(s, itemData).1
    case Err(e) => Err(e)
    case Ok(d) => Ok(ToDomainEntity(d))
  }

  /** What `UpdateItemUseCase.execute` returns or throws: null from the repository is "Item not found". */
  function UpdateOutcome(s: ItemState, id: string, updateData: Json): Result<ItemEntity, ItemError> {
    match Updated(s, id, updateData).1
    case Err(e) => Err(e)
    case Ok(None) => Err(ItemNotFound)
    case Ok(Some(d)) => Ok(ToDomainEntity(d))
  }

  /** What `DeleteItemUseCase.execute` returns or throws. */
  function DeleteOutcome(s: ItemState, id: string): Result<ItemEntity, ItemError> {
    match Deleted(s, id).1
    case Err(e) => Err(e)
    case Ok(None) => Err(ItemNotFound)
    case Ok(Some(d)) => Ok(ToDomainEntity(d))
  }

  /** A create succeeds exactly when zod and the store accept the input; the item it returns
      is new, holds the trimmed, defaulted input, and is the one now stored. */
  lemma CreateOutcomeSpec(s: ItemState, itemData: Json)
    requires WellFormed(s)
    ensures CreateOutcome(s, itemData).Ok? <==>
      ParseItem(itemData).Ok? && StoreAccepts(WithDefaults(TrimSetters(ParseItem(itemData).value)))
    ensures ParseItem(itemData).Err? ==> CreateOutcome(s, itemData) == Err(ValidationError(ParseItem(itemData).error))
    ensures CreateOutcome(s, itemData).Ok? ==>
      var e := CreateOutcome(s, itemData).value;
      && EntityFields(e) == WithDefaults(TrimSetters(ParseItem(itemData).value))
      && FindById(s, e.id).None?
      && FindById(Created(s, itemData).0, e.id).Some?
      && ToDomainEntity(FindById(Created(s, itemData).0, e.id).value) == e
  {
    if ParseItem(itemData).Ok? {
      SavedSpec(s, ParseItem(itemData).value);
    }
  }

  /** An update fails with "Item not found" exactly when the request is valid but no item has
      that id; otherwise a success returns the item with that id, holding the patched fields. */
  lemma UpdateOutcomeSpec(s: ItemState, id: string, updateData: Json)
    requires WellFormed(s)
    ensures !ValidId(id) ==> UpdateOutcome(s, id, updateData) == Err(InvalidIdFormat)
    ensures ValidId(id) && ParseItemPatch(updateData).Ok? ==>
      (UpdateOutcome(s, id, updateData) == Err(ItemNotFound) <==>
         StoreAcceptsPatch(TrimPatch(ParseItemPatch(updateData).value)) && FindById(s, id).None?)
    ensures UpdateOutcome(s, id, updateData).Ok? ==>
      var e := UpdateOutcome(s, id, updateData).value;
      && e.id == id
      && EntityFields(e) == Patched(FindById(s, id).value.fields, TrimPatch(ParseItemPatch(updateData).value))
      && e.createdAt == FindById(s, id).value.createdAt
  {
    if ValidId(id) && ParseItemPatch(updateData).Ok? {
      UpdatedByIdSpec(s, id, ParseItemPatch(updateData).value);
    }
  }

  /** A delete fails with "Item not found" exactly when no item has that (valid) id, and
      otherwise returns the item that was stored under it. */
  lemma DeleteOutcomeSpec(s: ItemState, id: string)
    requires WellFormed(s)
    ensures !ValidId(id) ==> DeleteOutcome(s, id) == Err(InvalidIdFormat)
    ensures ValidId(id) ==> (DeleteOutcome(s, id) == Err(ItemNotFound) <==> FindById(s, id).None?)
    ensures DeleteOutcome(s, id).Ok? ==>
      && FindById(s, id).Some? && DeleteOutcome(s, id).value == ToDomainEntity(FindById(s, id).value)
      && FindById(Deleted(s, id).0, id).None?
  {
    if ValidId(id) {
      DeletedByIdSpec(s, id);
    }
  }

  class CreateItemUseCase {
    const itemRepository: ItemRepository
    const eventPublisher: KafkaEventPublisher

    constructor (itemRepository: ItemRepository, eventPublisher: KafkaEventPublisher)
      ensures this.itemRepository == itemRepository && this.eventPublisher == eventPublisher
    {
      this.itemRepository := itemRepository;
      this.eventPublisher := eventPublisher;
    }

    /** Create, then publish `ITEM_CREATED` once with the new item's id and fields. */
    method Execute(itemData: Json, now: string, sendOk: bool) returns (r: Result<ItemEntity, ItemError>)
      requires itemRepository.items.Valid()
      modifies itemRepository.items, eventPublisher.kafka
      ensures itemRepository.items.Valid()
      ensures itemRepository.items.state == Created(old(itemRepository.items.state), itemData).0
      ensures r == CreateOutcome(old(itemRepository.items.state), itemData)
      ensures eventPublisher.kafka.producer == old(eventPublisher.kafka.producer)
      ensures r.Err? ==> eventPublisher.kafka.sent == old(eventPublisher.kafka.sent)
      ensures r.Ok? ==>
        eventPublisher.kafka.sent == old(eventPublisher.kafka.sent) + Delivered(old(eventPublisher.kafka.producer), PublishedEvent(ItemCreated, r.value.id, EventData(r.value), now), sendOk)
    {
      r := itemRepository.Create(itemData);
      if r.Err? {
        return;
      }
      eventPublisher.PublishItemCreated(r.value.id, EventData(r.value), now, sendOk);
    }
  }

  class UpdateItemUseCase {
    const itemRepository: ItemRepository
    const eventPublisher: KafkaEventPublisher

    constructor (itemRepository: ItemRepository, eventPublisher: KafkaEventPublisher)
      ensures this.itemRepository == itemRepository && this.eventPublisher == eventPublisher
    {
      this.itemRepository := itemRepository;
      this.eventPublisher := eventPublisher;
    }

    /** Update; "Item not found" on null; then publish `ITEM_UPDATED` once. */
    method Execute(id: string, updateData: Json, now: string, sendOk: bool) returns (r: Result<ItemEntity, ItemError>)
      requires itemRepository.items.Valid()
      modifies itemRepository.items, eventPublisher.kafka
      ensures itemRepository.items.Valid()
      ensures itemRepository.items.state == Updated(old(itemRepository.items.state), id, updateData).0
      ensures r == UpdateOutcome(old(itemRepository.items.state), id, updateData)
      ensures eventPublisher.kafka.producer == old(eventPublisher.kafka.producer)
      ensures r.Err? ==> eventPublisher.kafka.sent == old(eventPublisher.kafka.sent)
      ensures r.Ok? ==>
        eventPublisher.kafka.sent == old(eventPublisher.kafka.sent) + Delivered(old(eventPublisher.kafka.producer), PublishedEvent(ItemUpdated, r.value.id, EventData(r.value), now), sendOk)
    {
      var updated := itemRepository.Update(id, updateData);
      if updated.Err? {
        return Err(updated.error);
      }
      if updated.value.None? {
        return Err(ItemNotFound);
      }
      r := Ok(updated.value.value);
      eventPublisher.PublishItemUpdated(r.value.id, EventData(r.value), now, sendOk);
    }
  }

  class DeleteItemUseCase {
    const itemRepository: ItemRepository
    const eventPublisher: KafkaEventPublisher

    constructor (itemRepository: ItemRepository, eventPublisher: KafkaEventPublisher)
      ensures this.itemRepository == itemRepository && this.eventPublisher == eventPublisher
    {
      this.itemRepository := itemRepository;
      this.eventPublisher := eventPublisher;
    }

    /** Delete; "Item not found" on null; then publish `ITEM_DELETED` once with the removed item. */
    method Execute(id: string, now: string, sendOk: bool) returns (r: Result<ItemEntity, ItemError>)
      requires itemRepository.items.Valid()
      modifies itemRepository.items, eventPublisher.kafka
      ensures itemRepository.items.Valid()
      ensures itemRepository.items.state == Deleted(old(itemRepository.items.state), id).0
      ensures r == DeleteOutcome(old(itemRepository.items.state), id)
      ensures eventPublisher.kafka.producer == old(eventPublisher.kafka.producer)
      ensures r.Err? ==> eventPublisher.kafka.sent == old(eventPublisher.kafka.sent)
      ensures r.Ok? ==>
        eventPublisher.kafka.sent == old(eventPublisher.kafka.sent) + Delivered(old(eventPublisher.kafka.producer), PublishedEvent(ItemDeleted, r.value.id, EventData(r.value), now), sendOk)
    {
      var deleted := itemRepository.Delete(id);
      if deleted.Err? {
        return Err(deleted.error);
      }
      if deleted.value.None? {
        return Err(ItemNotFound);
      }
      r := Ok(deleted.value.value);
      eventPublisher.PublishItemDeleted(r.value.id, EventData(r.value), now, sendOk);
    }
  }

  /** `GetItemByNameUseCase.execute`: the repository's newest match for the trimmed name, or
      "Item not found". */
  function GetItemByName(s: ItemState, name: string): (r: Result<ItemEntity, ItemError>)
    ensures r.Err? <==> forall i :: 0 <= i < |s.docs| ==> s.docs[i].fields.name != Text.Trim(name)
    ensures r.Err? ==> r.error == ItemNotFound
    ensures r.Ok? ==> r.value == ToDomainEntity(FindOneByName(s, name).value) && r.value.name == Text.Trim(name)
  {
    match ToEntity(FindOneByName(s, name))
    case None => Err(ItemNotFound)
    case Some(e) => Ok(e)
  }

  /** `GetItemByIdUseCase.execute`: "Invalid item ID format" passes through; null becomes "Item not found". */
  function GetItemById(s: ItemState, id: string): (r: Result<ItemEntity, ItemError>)
    ensures !ValidId(id) ==> r == Err(InvalidIdFormat)
    ensures ValidId(id) ==> (r == Err(ItemNotFound) <==> FindById(s, id).None?)
    ensures r.Ok? ==> r.value.id == id && r.value == ToDomainEntity(FindById(s, id).value)
  {
    match Lookup(s, id)
    case Err(e) => Err(e)
    case Ok(None) => Err(ItemNotFound)
    case Ok(Some(d)) => Ok(ToDomainEntity(d))
  }
}
