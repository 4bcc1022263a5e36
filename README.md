# my-tiny-app replication and consistency check, in Dafny

my-tiny-app has two services. The primary (`my-tiny-app`) keeps items in a MongoDB
collection. It validates every write with zod and publishes one Kafka event per successful
create, update or delete. The consumer (`my-tiny-app-consumer`) applies those events to its
own `consumed-items` collection, keyed by `originalItemId`. Its search endpoint then checks
that a replica row and the primary's item with the same name still agree on name,
description, price and quantity.

This project models:

- **Primary mutation and publication.**
  - The zod item validator and the store's setters, defaults and validators (`Items`).
  - The `Item` collection (`ItemStore`), the repository, the older item service and the five use cases.
  - The producer singleton, the two error-swallowing publishers and the event schema (`ItemEvents`).
  - The producer's and the consumer's event schemas are the same declaration, so they are modelled once.
- **Replica event application.**
  - The consumer's validator and collection (`ConsumedItems`).
  - The event handler, as methods over a `ConsumedItemCollection` class.
  - The `eachMessage` loop, as a `Run` method over a message sequence.
- **Consistency verification.**
  - `compareItems`, which the older controller declares a second copy of with the same body, so it is modelled once.
  - The search use case.
  - Both consumer search handlers: the current one, which picks its status code from the wording of the use case's error, and the older one.
- **The two services together** (`Replication`). After a successful primary write whose event is consumed, the replica row under each item's id holds that item's fields.

Modelling choices:

- Both collections are sequences in insertion order. Ids and `createdAt` come from counters that only grow, so "newest first" is the reverse of that order.
- The replica's unique index on `originalItemId` is an invariant of its collection (`ConsumedItems.WellFormed`).
- JavaScript numbers are `real`. `Date` values are the text they were made from, and store timestamps are a logical clock.
- `String(_id)` is a 24-digit lower-case hexadecimal rendering of the id counter. `ObjectId.isValid` is modelled as accepting 24 lower-case hexadecimal digits; what that leaves out is listed below.
- The broker, the HTTP client and the database driver are not modelled. Whether a connect, a send or a disconnect succeeds, and what the primary's search API returns, are parameters.
- The consumer's upsert writes only the paths whose `data` value is defined. A path that is `undefined` keeps the row's old value. `null` writes null. On insert, the schema's `quantity` default of 0 applies.

Behaviour of the code worth noting:

- The event schema accepts an empty `itemId`. The store's `required` on `originalItemId` then refuses the upsert (`ItemEventHandler.EmptyItemIdRejected`), and a delete with it is a no-op.
- Both publishers send `data` with `ITEM_DELETED` too.
- The event schema does not require `data` to hold a `name`. An update of an existing row without one keeps the row's name. The model refuses a new row without one; the list of what is left out says how this differs from the library (`ConsumedItems.Upserted`).
- An update event does not overwrite the fields its `data` leaves out.
- The current search handler does not always answer 500 when the primary's API fails. It answers 404 if the API's error text mentions one of its three 404 phrases (`SearchControllers.ApiErrorWordingDecidesStatus`).

## Model

| member | source | states |
|---|---|---|
| Items.ParseItem | my-tiny-app/src/models/item.model.ts:7-12 | accepts exactly the objects whose name is a 1–100 character string and whose description (≤500 characters), price (>0) and quantity (integer ≥0) are absent or valid; a refusal carries every issue found; an acceptance returns the four fields as sent, other keys stripped |
| Items.ParseItemPatch | my-tiny-app/src/infrastructure/repositories/item.repository.ts:64-68 | the `.partial()` schema: every field optional, each present one bounded as in the full schema; returns exactly the keys sent |
| Items.NameIsRequired | my-tiny-app/src/models/item.model.ts:8 | a missing, null, non-string or empty name is refused whatever else is sent |
| Items.OnlyNameNeeded | my-tiny-app/src/models/item.model.ts:9-11 | a valid name alone is accepted, with description, price and quantity absent |
| Items.ZeroPriceRejected | my-tiny-app/src/models/item.model.ts:10 | price 0 is refused by the validator although the store's `min: 0` would take it |
| Items.EmptyPatchAccepted | my-tiny-app/src/presentation/dtos/item.dto.ts:13 | the empty update request is accepted and changes no field |
| Items.ParsedWithinBounds | my-tiny-app/src/presentation/dtos/item.dto.ts:6-11 | what the create schema accepts lies within its bounds and holds no null |
| Items.BoundedStoreAccepted | my-tiny-app/src/models/item.model.ts:28-50 | within the validator's bounds, the store's required/maxlength/min checks after trimming and the quantity default fail only for a name that trims to "" |
| Items.ValidatedItemStoreAccepted | my-tiny-app/src/infrastructure/repositories/item.repository.ts:46-54 | input the zod check lets through is saved unless its name is all whitespace |
| Items.ValidatedPatchStoreAccepted | my-tiny-app/src/infrastructure/repositories/item.repository.ts:64-74 | an update zod lets through passes the update validators unless it sets an all-whitespace name |
| Items.TrimSettersTrim | my-tiny-app/src/models/item.model.ts:30-40 | the trim setters leave name and description without surrounding whitespace, and applying them twice equals applying them once |
| Items.TrimPatchTrims | my-tiny-app/src/models/item.model.ts:30-40 | an update through the setters keeps a trimmed document trimmed |
| ItemEvents.EventTypeOf | my-tiny-app-consumer/src/config/kafka.ts:8 | only the three literals are event types, each named by its own literal |
| ItemEvents.ParseEvent | my-tiny-app-consumer/src/config/kafka.ts:7-12 | accepts exactly objects with a known `eventType`, a string `itemId`, a string `timestamp` and, if present, an object `data`; refusals list every issue; acceptance strips unknown keys |
| ItemEvents.EventRoundTrip | my-tiny-app/src/config/kafka.ts:7-12 | every event, serialised and read back by the (identical) consumer schema, is accepted unchanged |
| ItemEvents.AnyIdAccepted | my-tiny-app-consumer/src/config/kafka.ts:9-11 | any `itemId` and `timestamp`, the empty string included, pass; `data` may be absent |
| ItemEvents.EventTypeAndDataChecked | my-tiny-app-consumer/src/config/kafka.ts:8-10 | an unknown event type, or a `data` that is null or an array, is refused |
| ItemEvents.PublishedEventValid | my-tiny-app/src/infrastructure/messaging/kafka-event-publisher.ts:10-15 | the event a publisher builds always passes the schema, carrying the given type, id, data and time |
| ProducerKafka.DeliverySpec | my-tiny-app/src/config/kafka.ts:46-73 | no producer: "Kafka producer not initialized" and nothing sent; an invalid event: rejected and nothing sent; otherwise at most one message, sent exactly when the producer is connected and the send succeeds, keyed by `itemId` and carrying the event |
| ProducerKafka.Delivery | my-tiny-app/src/config/kafka.ts:46-73 | what `publishItemEvent` resolves to: not initialised, an invalid event, or the send's outcome; its meaning is stated by `ProducerKafka.DeliverySpec` |
| ProducerKafka.KafkaProducer.constructor | my-tiny-app/src/config/kafka.ts:24 | the producer starts unset, with nothing sent |
| ProducerKafka.KafkaProducer.Initialize | my-tiny-app/src/config/kafka.ts:30-39 | the producer is set before it connects, so a failed connect rejects but leaves it set; nothing is sent |
| ProducerKafka.KafkaProducer.PublishItemEvent | my-tiny-app/src/config/kafka.ts:46-73 | resolves as `Delivery` says, appends exactly the delivered messages, keeps the producer |
| ProducerKafka.KafkaProducer.Disconnect | my-tiny-app/src/config/kafka.ts:78-84 | a no-op when unset; a completed disconnect unsets the producer; a failed one keeps it |
| EventPublisher.PublishedDelivered | my-tiny-app/src/infrastructure/messaging/kafka-event-publisher.ts:8-20 | a publisher's event reaches the topic exactly when the producer is connected and the send succeeds, as one message keyed by the item id |
| EventPublisher.KafkaEventPublisher.PublishItemCreated | my-tiny-app/src/infrastructure/messaging/kafka-event-publisher.ts:8-20 | one publish attempt of `ITEM_CREATED` with the id and data unchanged; never fails; the topic gains what that attempt delivers |
| EventPublisher.KafkaEventPublisher.PublishItemUpdated | my-tiny-app/src/infrastructure/messaging/kafka-event-publisher.ts:22-34 | the same for `ITEM_UPDATED` |
| EventPublisher.KafkaEventPublisher.PublishItemDeleted | my-tiny-app/src/infrastructure/messaging/kafka-event-publisher.ts:36-48 | the same for `ITEM_DELETED`, still carrying the data |
| KafkaEventService.PublishItemCreatedEvent | my-tiny-app/src/services/kafka-event.service.ts:8-23 | one attempt, failure swallowed, `ITEM_CREATED` with the id and data given |
| KafkaEventService.PublishItemUpdatedEvent | my-tiny-app/src/services/kafka-event.service.ts:30-45 | the same for `ITEM_UPDATED` |
| KafkaEventService.PublishItemDeletedEvent | my-tiny-app/src/services/kafka-event.service.ts:52-67 | the same for `ITEM_DELETED`, with data |
| ItemStore.FindNewestFirst | my-tiny-app/src/infrastructure/repositories/item.repository.ts:26 | `find().sort({createdAt: -1})` lists every document once (a permutation) in strictly decreasing creation time |
| ItemStore.FindByIdUnique | my-tiny-app/src/infrastructure/repositories/item.repository.ts:35 | ids are unique: `findById` returns the one document with that id |
| ItemStore.FindOneByNameNewest | my-tiny-app/src/infrastructure/repositories/item.repository.ts:40 | `findOne({name}).sort({createdAt: -1})`, the filter trimmed by the schema's `trim` setter, is null exactly when no document's name is the trimmed query, else the newest document with that name |
| ItemStore.FindOneByNamePadding | my-tiny-app/src/models/item.model.ts:33 | whitespace around the query does not change what `findOne` by name finds ("Widget " finds "Widget") |
| ItemStore.SavedSpec | my-tiny-app/src/infrastructure/repositories/item.repository.ts:53-54 | a save either changes nothing (the store refuses the trimmed, defaulted fields) or appends one document under a fresh id holding them; the collection stays well formed |
| ItemStore.UpdatedByIdSpec | my-tiny-app/src/infrastructure/repositories/item.repository.ts:71-74 | `findByIdAndUpdate` with validators: refused or missing id changes nothing; otherwise the document keeps its id and creation time, gets exactly the patch's keys, and no other document changes |
| ItemStore.DeletedByIdSpec | my-tiny-app/src/infrastructure/repositories/item.repository.ts:84 | `findByIdAndDelete` resolves to what `findById` finds, which is gone afterwards; a missing id changes nothing |
| ItemStore.DeletedKeepsOthers | my-tiny-app/src/infrastructure/repositories/item.repository.ts:84 | a delete removes exactly that one document (multiset) and keeps every other |
| ItemStore.SavedKeepsOthers | my-tiny-app/src/infrastructure/repositories/item.repository.ts:53-54 | a save changes what no other id finds |
| ItemStore.UpdatedByIdKeepsOthers | my-tiny-app/src/infrastructure/repositories/item.repository.ts:71-74 | an update changes what no other id finds |
| ItemStore.DeletedByIdKeepsOthers | my-tiny-app/src/infrastructure/repositories/item.repository.ts:84 | a delete changes what no other id finds |
| ItemStore.RejectedRequestsChangeNothing | my-tiny-app/src/infrastructure/repositories/item.repository.ts:30-82 | a malformed id fails find, update and delete with "Invalid item ID format"; a zod refusal fails create and update with a validation error; none of these touches the collection |
| ItemStore.Saved | my-tiny-app/src/infrastructure/repositories/item.repository.ts:53-54 | `new Item(data).save()`: the setters, the quantity default and the store validators, then one appended document; its meaning is stated by `ItemStore.SavedSpec` and `ItemStore.SavedKeepsOthers` |
| ItemStore.UpdatedById | my-tiny-app/src/infrastructure/repositories/item.repository.ts:71-74 | `findByIdAndUpdate` with `runValidators` and `new`; its meaning is stated by `ItemStore.UpdatedByIdSpec` and `ItemStore.UpdatedByIdKeepsOthers` |
| ItemStore.DeletedById | my-tiny-app/src/infrastructure/repositories/item.repository.ts:84 | `findByIdAndDelete`; its meaning is stated by `ItemStore.DeletedByIdSpec`, `ItemStore.DeletedKeepsOthers` and `ItemStore.DeletedByIdKeepsOthers` |
| ItemStore.Created | my-tiny-app/src/infrastructure/repositories/item.repository.ts:44-56 | zod, then the save; a refusal stores nothing (`ItemStore.RejectedRequestsChangeNothing`) |
| ItemStore.Updated | my-tiny-app/src/infrastructure/repositories/item.repository.ts:58-77 | the id check, zod, then the update (`ItemStore.RejectedRequestsChangeNothing`, `ItemStore.UpdatedByIdSpec`) |
| ItemStore.Deleted | my-tiny-app/src/infrastructure/repositories/item.repository.ts:79-86 | the id check, then the delete (`ItemStore.RejectedRequestsChangeNothing`, `ItemStore.DeletedByIdSpec`) |
| ItemStore.ValidationMessage | my-tiny-app/src/infrastructure/repositories/item.repository.ts:46-50 | a validation error's message starts with "Validation error: " |
| ItemRepositories.ToDomainEntity | my-tiny-app/src/infrastructure/repositories/item.repository.ts:13-23 | every field copied unchanged; the id is its string form, from which the stored id reads back |
| ItemRepositories.EntityIdsDistinct | my-tiny-app/src/infrastructure/repositories/item.repository.ts:15 | distinct documents map to distinct entity ids |
| ItemRepositories.ItemRepository.FindAll | my-tiny-app/src/infrastructure/repositories/item.repository.ts:25-28 | every item as an entity, newest first |
| ItemRepositories.ItemRepository.FindById | my-tiny-app/src/infrastructure/repositories/item.repository.ts:30-37 | throws "Invalid item ID format" exactly for a malformed id; otherwise the item with that id or null |
| ItemRepositories.ItemRepository.FindByName | my-tiny-app/src/infrastructure/repositories/item.repository.ts:39-42 | null exactly when no document's name is the trimmed query; otherwise the entity of the newest such document, carrying that name |
| ItemRepositories.ItemRepository.Create | my-tiny-app/src/infrastructure/repositories/item.repository.ts:44-56 | zod first: a refusal throws and stores nothing; a success returns a new entity with a fresh id holding the trimmed, defaulted input |
| ItemRepositories.ItemRepository.Update | my-tiny-app/src/infrastructure/repositories/item.repository.ts:58-77 | id check, then zod, then the store; any failure or a missing id leaves the collection as it was; a success returns the item with that id |
| ItemRepositories.ItemRepository.Delete | my-tiny-app/src/infrastructure/repositories/item.repository.ts:79-86 | throws only for a malformed id; returns what `findById` found; afterwards nothing has that id |
| ItemService.GetAllItems | my-tiny-app/src/services/item.service.ts:8-10 | a permutation of the documents in strictly decreasing creation time |
| ItemService.GetItemByName | my-tiny-app/src/services/item.service.ts:17-19 | null exactly when no document's name is the trimmed query; else the newest document with that name |
| ItemService.GetItemById | my-tiny-app/src/services/item.service.ts:27-33 | "Invalid item ID format" exactly for a malformed id; otherwise the document with that id or null |
| ItemService.CreateItem | my-tiny-app/src/services/item.service.ts:41-52 | a zod refusal throws "Validation error: …" and saves nothing; a success appends the saved document |
| ItemService.UpdateItem | my-tiny-app/src/services/item.service.ts:61-81 | the id and zod checks run before the store; a failure or null leaves it unchanged |
| ItemService.DeleteItem | my-tiny-app/src/services/item.service.ts:89-95 | the removed document (what `findById` found) or null; afterwards nothing has that id |
| PrimaryUseCases.CreateOutcomeSpec | my-tiny-app/src/application/use-cases/create-item.use-case.ts:14-27 | a create succeeds exactly when zod and the store accept the input; the returned item is new and is the one now stored |
| PrimaryUseCases.UpdateOutcomeSpec | my-tiny-app/src/application/use-cases/update-item.use-case.ts:14-31 | "Item not found" exactly when the request is valid and no item has the id; a success returns the item with that id, patched, same creation time |
| PrimaryUseCases.DeleteOutcomeSpec | my-tiny-app/src/application/use-cases/delete-item.use-case.ts:14-31 | "Item not found" exactly when no item has the (valid) id; otherwise the removed item, gone afterwards |
| PrimaryUseCases.CreateOutcome | my-tiny-app/src/application/use-cases/create-item.use-case.ts:14-27 | what `CreateItemUseCase.execute` returns or throws; its meaning is stated by `PrimaryUseCases.CreateOutcomeSpec` |
| PrimaryUseCases.UpdateOutcome | my-tiny-app/src/application/use-cases/update-item.use-case.ts:14-31 | what `UpdateItemUseCase.execute` returns or throws, null becoming "Item not found"; its meaning is stated by `PrimaryUseCases.UpdateOutcomeSpec` |
| PrimaryUseCases.DeleteOutcome | my-tiny-app/src/application/use-cases/delete-item.use-case.ts:14-31 | what `DeleteItemUseCase.execute` returns or throws, null becoming "Item not found"; its meaning is stated by `PrimaryUseCases.DeleteOutcomeSpec` |
| PrimaryUseCases.CreateItemUseCase.Execute | my-tiny-app/src/application/use-cases/create-item.use-case.ts:14-27 | creates first; on failure publishes nothing; on success publishes `ITEM_CREATED` once with the new item's id and four fields; the result does not depend on the publish |
| PrimaryUseCases.UpdateItemUseCase.Execute | my-tiny-app/src/application/use-cases/update-item.use-case.ts:14-31 | updates first; on an error or null ("Item not found") publishes nothing; otherwise publishes `ITEM_UPDATED` once with the updated item |
| PrimaryUseCases.DeleteItemUseCase.Execute | my-tiny-app/src/application/use-cases/delete-item.use-case.ts:14-31 | deletes first; on an error or null publishes nothing; otherwise publishes `ITEM_DELETED` once with the removed item |
| PrimaryUseCases.GetItemByName | my-tiny-app/src/application/use-cases/get-item-by-name.use-case.ts:10-18 | "Item not found" exactly when no item's name is the trimmed query; otherwise the newest match, carrying that name |
| PrimaryUseCases.GetItemById | my-tiny-app/src/application/use-cases/get-item-by-id.use-case.ts:10-18 | "Invalid item ID format" passes through; "Item not found" exactly when no item has the id; otherwise that item |
| ConsumedItems.ParseConsumedItem | my-tiny-app-consumer/src/models/consumed-item.model.ts:7-14 | accepts exactly the item validator's objects with a string `originalItemId` and a string `lastSyncedAt`, which becomes a `Date` |
| ConsumedItems.ConsumedValidatorExtendsItemValidator | my-tiny-app-consumer/src/models/consumed-item.model.ts:8-11 | the consumer's item bounds are the primary's: name 1–100, description ≤500, price >0, quantity integer ≥0 |
| ConsumedItems.OriginalItemIdRequired | my-tiny-app-consumer/src/models/consumed-item.model.ts:12 | a missing or non-string `originalItemId` is refused with that issue |
| ConsumedItems.LastSyncedAtIssues | my-tiny-app-consumer/src/models/consumed-item.model.ts:13 | a JSON `lastSyncedAt` passes exactly when it is a string |
| ConsumedItems.ConsumedItemCollection.FindOneAndUpdate | my-tiny-app-consumer/src/services/item-event-handler.ts:46-54 | the upsert on the shared collection; keeps the schema and the unique index |
| ConsumedItems.ConsumedItemCollection.FindOneAndDelete | my-tiny-app-consumer/src/services/item-event-handler.ts:64 | the delete on the shared collection; keeps the schema and the unique index |
| ConsumedItems.FindByKeyUnique | my-tiny-app-consumer/src/models/consumed-item.model.ts:54-59 | the unique index: the row a key finds is the only row with that key |
| ConsumedItems.FindOneByNameNewest | my-tiny-app-consumer/src/infrastructure/repositories/consumed-item.repository.ts:27 | `findOne({name}).sort({createdAt: -1})`, the filter trimmed by the schema's `trim` setter, is null exactly when no row's name is the trimmed query, else the newest row with that name (the older controller runs the same query) |
| ConsumedItems.FindOneByNamePadding | my-tiny-app-consumer/src/models/consumed-item.model.ts:37 | whitespace around the query does not change what `findOne` by name finds |
| ConsumedItems.TrimUpdateTrims | my-tiny-app-consumer/src/models/consumed-item.model.ts:34-44 | rows written through the trim setters stay trimmed |
| ConsumedItems.UpsertedWellFormed | my-tiny-app-consumer/src/models/consumed-item.model.ts:32-69 | an upsert keeps every row within the schema's validators and at most one row per `originalItemId` |
| ConsumedItems.CastTrimmed | my-tiny-app-consumer/src/services/item-event-handler.ts:37-44 | what the update writes: strings trimmed, numbers as sent, null as null, undefined paths not at all, `lastSyncedAt` from the event |
| ConsumedItems.UpsertedSpec | my-tiny-app-consumer/src/services/item-event-handler.ts:46-54 | fails (changing nothing) on a cast or validator failure or the empty key; otherwise exactly one row under the key: the existing one with its id and creation time and the written paths overwritten, or a new one appended |
| ConsumedItems.Upserted | my-tiny-app-consumer/src/services/item-event-handler.ts:46-54 | `findOneAndUpdate` by key with `upsert`, `new` and `runValidators`; its meaning is stated by `ConsumedItems.UpsertedSpec`, `ConsumedItems.UpsertedWellFormed`, `ConsumedItems.UpsertedKeepsOthers` and `ConsumedItems.UpsertIdempotent` |
| ConsumedItems.UpsertedKeepsOthers | my-tiny-app-consumer/src/services/item-event-handler.ts:46-54 | an upsert changes what no other key finds |
| ConsumedItems.UpsertIdempotent | my-tiny-app-consumer/src/services/item-event-handler.ts:46-54 | the same upsert twice gives the collection once gives, apart from `updatedAt`, and succeeds or fails alike |
| ConsumedItems.RemovedSpec | my-tiny-app-consumer/src/services/item-event-handler.ts:64 | `findOneAndDelete` resolves to the row the key finds, which is gone afterwards; an absent key changes nothing |
| ConsumedItems.Removed | my-tiny-app-consumer/src/services/item-event-handler.ts:64 | `findOneAndDelete` by key; its meaning is stated by `ConsumedItems.RemovedSpec`, `ConsumedItems.RemovedKeepsOthers` and `ConsumedItems.RemovedIdempotent` |
| ConsumedItems.RemovedKeepsOthers | my-tiny-app-consumer/src/services/item-event-handler.ts:64 | a delete changes what no other key finds |
| ConsumedItems.RemovedIdempotent | my-tiny-app-consumer/src/services/item-event-handler.ts:64 | deleting twice equals deleting once |
| ConsumedItemRepositories.ToDomainEntity | my-tiny-app-consumer/src/infrastructure/repositories/consumed-item.repository.ts:12-24 | every stored field copied unchanged; the id is its string form, from which the row id reads back |
| ConsumedItemRepositories.FindByNameSpec | my-tiny-app-consumer/src/infrastructure/repositories/consumed-item.repository.ts:26-29 | null exactly when no row's name is the trimmed query; otherwise the mapped newest such row, carrying that name |
| SearchRequests.ParseSearchRequest | my-tiny-app-consumer/src/presentation/dtos/item.dto.ts:6-8 | accepts exactly objects whose `name` is a string of length ≥1, and returns that name unchanged |
| SearchRequests.SearchRequestCases | my-tiny-app/src/presentation/dtos/item.dto.ts:15-17 | "" is refused with "Name is required"; missing, null and numeric names are refused; an all-space name passes untrimmed |
| ItemEventHandler.HandleItemCreatedOrUpdated | my-tiny-app-consumer/src/services/item-event-handler.ts:31-57 | throws "Event data is missing" without `data`, else performs one upsert of the data with `lastSyncedAt` from the timestamp |
| ItemEventHandler.HandleItemDeleted | my-tiny-app-consumer/src/services/item-event-handler.ts:63-71 | one delete by key; never throws, the row found or not |
| ItemEventHandler.HandleItemEvent | my-tiny-app-consumer/src/services/item-event-handler.ts:8-25 | dispatches on the event type and re-throws the branch's error; the collection stays well formed |
| ItemEventHandler.AppliedWellFormed | my-tiny-app-consumer/src/services/item-event-handler.ts:8-25 | handling any event keeps the schema and the unique index |
| ItemEventHandler.Applied | my-tiny-app-consumer/src/services/item-event-handler.ts:8-25 | the dispatch on the event type; its meaning is stated by `ItemEventHandler.AppliedWellFormed`, `ItemEventHandler.CreatedIsUpdated`, `ItemEventHandler.AppliedIdempotent` and `ItemEventHandler.AppliedKeepsOthers` |
| ItemEventHandler.Synced | my-tiny-app-consumer/src/services/item-event-handler.ts:31-54 | "Event data is missing", else one upsert of the data's paths under the item id; its meaning is stated by `ItemEventHandler.SyncedRowHoldsData` and `ItemEventHandler.MissingDataRejected` |
| ItemEventHandler.CreatedIsUpdated | my-tiny-app-consumer/src/services/item-event-handler.ts:10-14 | `ITEM_CREATED` and `ITEM_UPDATED` have the same effect |
| ItemEventHandler.MissingDataRejected | my-tiny-app-consumer/src/services/item-event-handler.ts:32-34 | a create or update without `data` throws "Event data is missing" and changes nothing |
| ItemEventHandler.EmptyItemIdRejected | my-tiny-app-consumer/src/services/item-event-handler.ts:42-54 | a create or update with the empty item id always fails, changing nothing |
| ItemEventHandler.FailureChangesNothing | my-tiny-app-consumer/src/services/item-event-handler.ts:21-24 | a handler that throws has left the collection as it was; a delete never throws |
| ItemEventHandler.SyncedRowHoldsData | my-tiny-app-consumer/src/services/item-event-handler.ts:36-54 | after a successful create or update, the row under the item id holds the event's data path by path, with earlier values for unwritten paths and the event's sync time |
| ItemEventHandler.UpdateBeforeCreate | my-tiny-app-consumer/src/services/item-event-handler.ts:46-54 | an update for an unknown key inserts one new row with its data and a default quantity of 0 |
| ItemEventHandler.AppliedIdempotent | my-tiny-app-consumer/src/services/item-event-handler.ts:46-64 | handling an event twice equals handling it once, apart from `updatedAt` |
| ItemEventHandler.AppliedKeepsOthers | my-tiny-app-consumer/src/services/item-event-handler.ts:46-64 | an event changes only the row under its own item id |
| ItemEventHandler.DeleteSpec | my-tiny-app-consumer/src/services/item-event-handler.ts:63-70 | a delete never throws, removes the row under its key, and is a no-op for an absent key |
| ConsumerKafka.ProcessMessageSpec | my-tiny-app-consumer/src/config/kafka.ts:44-67 | an empty, unparsable or schema-invalid message is skipped without change; a valid one reaches the handler exactly once, and a handler failure is caught with nothing changed |
| ConsumerKafka.ProcessMessage | my-tiny-app-consumer/src/config/kafka.ts:44-67 | the `eachMessage` callback on one message; its meaning is stated by `ConsumerKafka.ProcessMessageSpec` |
| ConsumerKafka.ProcessAll | my-tiny-app-consumer/src/config/kafka.ts:43-68 | the callback run on every message in order; its meaning is stated by `ConsumerKafka.ProcessAllWellFormed`, `ConsumerKafka.ProcessAllConcat` and `ConsumerKafka.EveryMessageProcessed` |
| ConsumerKafka.KafkaConsumer.constructor | my-tiny-app-consumer/src/config/kafka.ts:24 | the consumer starts unset |
| ConsumerKafka.KafkaConsumer.Initialize | my-tiny-app-consumer/src/config/kafka.ts:30-41 | the consumer is set before connecting; a failed connect or subscribe is re-thrown and leaves it set |
| ConsumerKafka.KafkaConsumer.EachMessage | my-tiny-app-consumer/src/config/kafka.ts:44-67 | the callback on one message, as `ProcessMessage` says; the collection stays well formed |
| ConsumerKafka.KafkaConsumer.Run | my-tiny-app-consumer/src/config/kafka.ts:43-68 | the callback on every message in order; the collection ends as `ProcessAll` says |
| ConsumerKafka.KafkaConsumer.Disconnect | my-tiny-app-consumer/src/config/kafka.ts:78-84 | a no-op when unset; a completed disconnect leaves the consumer null |
| ConsumerKafka.EveryMessageProcessed | my-tiny-app-consumer/src/config/kafka.ts:64-66 | every message gets exactly one outcome: no message stops the ones after it |
| ConsumerKafka.ProcessAllWellFormed | my-tiny-app-consumer/src/config/kafka.ts:43-68 | any message sequence keeps the schema and the unique index |
| ConsumerKafka.ProcessAllConcat | my-tiny-app-consumer/src/config/kafka.ts:43-68 | processing two batches one after the other is processing them together |
| ConsumerKafka.SkippedMessagesChangeNothing | my-tiny-app-consumer/src/config/kafka.ts:46-52 | a sequence of empty or unparsable messages leaves the collection as it was |
| ItemComparison.CompareItems | my-tiny-app-consumer/src/domain/services/item-comparison.service.ts:14-50 | true exactly when the normalised name, description, price and quantity are equal |
| ItemComparison.CompareIsEquivalence | my-tiny-app-consumer/src/domain/services/item-comparison.service.ts:24-49 | the comparison is reflexive, symmetric and transitive |
| ItemComparison.NameComparedLiterally | my-tiny-app-consumer/src/domain/services/item-comparison.service.ts:24-26 | a trailing space in the name is a difference ("Widget" vs "Widget ") |
| ItemComparison.DescriptionEquivalences | my-tiny-app-consumer/src/domain/services/item-comparison.service.ts:29-33 | absent, null, "" and all-whitespace descriptions are equal; surrounding whitespace is ignored |
| ItemComparison.DescriptionDifference | my-tiny-app-consumer/src/domain/services/item-comparison.service.ts:29-33 | descriptions that differ once trimmed are a difference |
| ItemComparison.NumbersAbsentIsNull | my-tiny-app-consumer/src/domain/services/item-comparison.service.ts:36-47 | an absent price or quantity equals a null one; 0 equals neither |
| ItemComparison.CompareFieldByField | my-tiny-app-consumer/src/domain/services/item-comparison.service.ts:14-22 | only the four fields are consulted, each under its own normalisation |
| SearchUseCase.Execute | my-tiny-app-consumer/src/application/use-cases/search-item-by-name.use-case.ts:43-109 | a success always carries an item |
| SearchUseCase.SuccessIffAgreement | my-tiny-app-consumer/src/application/use-cases/search-item-by-name.use-case.ts:73-108 | success exactly when both lookups find an item and the comparison holds; the item returned is the replica's, with no error and no details |
| SearchUseCase.FailureSpec | my-tiny-app-consumer/src/application/use-cases/search-item-by-name.use-case.ts:45-101 | each failure carries its own message ("…consumer database", "Error calling my-tiny-app API: " + message, "…my-tiny-app database", "…does not match…"); details come exactly with the mismatch and hold both sides' unequal fields; a rejected replica lookup is re-thrown |
| SearchUseCase.CallsSpec | my-tiny-app-consumer/src/application/use-cases/search-item-by-name.use-case.ts:45-57 | the replica is asked first; the API is asked once, with the same name, exactly when the replica has the item; nothing is written |
| SearchUseCase.ReplicaMissIgnoresApi | my-tiny-app-consumer/src/application/use-cases/search-item-by-name.use-case.ts:47-52 | with no replica row the answer is "Item not found in consumer database", whatever the API would say |
| SearchUseCase.SearchOverReplica | my-tiny-app-consumer/src/application/use-cases/search-item-by-name.use-case.ts:45-52 | over the repository: "not in consumer database" exactly when no row's name is the trimmed query; a success returns the newest row with that name |
| SearchControllers.StatusFor | my-tiny-app-consumer/src/presentation/controllers/item.controller.ts:27-36 | the status picked from the error is 404 or 500 |
| SearchControllers.ValidationRefused | my-tiny-app-consumer/src/presentation/controllers/item.controller.ts:11-20 | an invalid body gets 400 "Validation error" with the issues, and the use case is not run |
| SearchControllers.StatusByOutcome | my-tiny-app-consumer/src/presentation/controllers/item.controller.ts:23-65 | a thrown lookup gets 500; either "not found" and a mismatch get 404, the mismatch with its details; agreement gets 200 with every field of the replica item, `originalItemId` included; an API error gets the status its wording picks |
| SearchControllers.SearchItemByName | my-tiny-app-consumer/src/presentation/controllers/item.controller.ts:8-74 | the current handler's response and the use case's calls; its meaning is stated by `SearchControllers.ValidationRefused` and `SearchControllers.StatusByOutcome` |
| SearchControllers.ReplicaMissingIs404 | my-tiny-app-consumer/src/presentation/controllers/item.controller.ts:28-29 | "Item not found in consumer database" maps to 404 |
| SearchControllers.PrimaryMissingIs404 | my-tiny-app-consumer/src/presentation/controllers/item.controller.ts:30-31 | "Item not found in my-tiny-app database" maps to 404 |
| SearchControllers.FieldsDifferIs404 | my-tiny-app-consumer/src/presentation/controllers/item.controller.ts:32-33 | the mismatch message maps to 404 |
| SearchControllers.ApiErrorWordingDecidesStatus | my-tiny-app-consumer/src/presentation/controllers/item.controller.ts:27-36 | an API error whose text contains "does not match" gets 404 from the current handler, where the older one answers 500 |
| SearchControllers.LegacyResponses | my-tiny-app-consumer/src/controllers/item.controller.ts:73-157 | the older handler's answer per step: 404 without calling the API when the replica lacks the name, 500 on an API error, 404 on the API's null, 404 with both sides' fields on a mismatch, 200 with the replica row (`originalItemId`, `lastSyncedAt` included) on agreement |
| SearchControllers.LegacySearchItemByName | my-tiny-app-consumer/src/controllers/item.controller.ts:61-166 | the older handler's response and calls; its meaning is stated by `SearchControllers.LegacyResponses` and `SearchControllers.HandlersAgree` |
| SearchControllers.SameBodiesRefused | my-tiny-app-consumer/src/controllers/item.controller.ts:63-71 | the older check refuses (400, no lookup) exactly the bodies the schema refuses, except `null`, which fails with 500 |
| SearchControllers.HandlersAgree | my-tiny-app-consumer/src/controllers/item.controller.ts:61-165 | on any accepted body the two handlers make the same calls and send the same status, message, details and item (less `id`), except that on an API error their statuses agree exactly when the wording picks 500 |
| Replication.ConsumedIsApplied | my-tiny-app/src/config/kafka.ts:58-66 | the message a publish sends is read back by the consumer and reaches its handler unchanged |
| Replication.SyncStored | my-tiny-app-consumer/src/services/item-event-handler.ts:36-54 | fields the primary stores, sent as `data`, are taken by the consumer exactly as they are |
| Replication.CreateMirrored | my-tiny-app/src/application/use-cases/create-item.use-case.ts:14-27 | from a replica that mirrors the primary, a successful create whose event is consumed leaves a mirror; a failed create changes nothing |
| Replication.UpdateMirrored | my-tiny-app/src/application/use-cases/update-item.use-case.ts:14-31 | the same for an update |
| Replication.DeleteMirrored | my-tiny-app/src/application/use-cases/delete-item.use-case.ts:14-31 | the same for a delete |
| Replication.LostCreateDiverges | my-tiny-app/src/infrastructure/messaging/kafka-event-publisher.ts:16-19 | a create whose event is swallowed leaves the replica no longer a mirror |

## Left out

- Kafka, MongoDB, Express and `fetch` are not modelled. Broker connect, subscribe, send and disconnect outcomes are boolean parameters. The primary's search API is one of three outcomes: found, null (404, or a body without `success`/`data`), or thrown. Logging is dropped.
- Concurrency and scheduling are not modelled: no partitions, no `await` interleaving, no shutdown signals. The consumer is a sequential loop over a given message sequence.
- Floating point is not modelled: numbers are exact reals, with no NaN, infinities or -0.
- `JSON.parse` is not modelled. A message value is absent, empty, unparsable or a JSON document, and `JSON.stringify` followed by `JSON.parse` is taken to return the same value.
- `new Date(...)` and `toISOString()` are not modelled. A date is the text it came from, the publish time is a parameter, and store timestamps are a logical clock. An unparsable timestamp (an Invalid Date) is not distinguished.
- `ObjectId.isValid` is not modelled in full. The model accepts exactly 24 lower-case hexadecimal digits. The library also accepts upper-case digits A–F, and `findById` then finds the item whose id matches without regard to case; it accepts some other strings too, such as 12-character ones. So for an id written with upper-case digits, the model's get, update and delete by id answer "Invalid item ID format", where the source finds, updates or deletes the item, and for update and delete publishes the event (`ItemService.GetItemById`, `ItemRepositories.ItemRepository.FindById`, `ItemRepositories.ItemRepository.Update`, `ItemRepositories.ItemRepository.Delete`, `PrimaryUseCases.GetItemById` and the update and delete use cases).
- Mongoose casting is not modelled in full. A value of the wrong JSON type for its path is refused (`CastFailed`), where Mongoose would cast some, such as a number written to a string path.
- Exact error texts from Mongoose, zod's `error.message` and the handler are abstracted: `StoreRejected`, `HandlerMessage`, `PublishErrorMessage`.
- The `z.date()` branch of `lastSyncedAt` is not modelled, because no JSON value is a `Date`.
- The consumer's `lastSyncedAt` default is not modelled, because the handler always sets that path.
- Database failures are not modelled, apart from the replica lookup the search may see rejected. The primary's HTTP controllers, routes, DI containers, health checks, `index.ts` files, the UI and the CDK stacks are not part of this model.
- ConsumedItems.Upserted: the model refuses an insert whose `data` has no `name` as a validator failure. With `runValidators`, Mongoose's update validators check only the paths an update sets, so the library would most likely insert such a row without a name, with `quantity` defaulted to 0. The name bound in `ConsumedItems.WellFormed` rests on this choice, and so do `ConsumedItems.UpsertedWellFormed`, `ItemEventHandler.AppliedWellFormed` and `ConsumerKafka.ProcessAllWellFormed`.
- ConsumedItems.UpsertedSpec: counts a nameless insert as a validator failure that changes nothing, where the library would most likely store the row (see `ConsumedItems.Upserted`).
- ConsumedItems.UpsertedWellFormed: "every row within the validators" holds because the model refuses nameless inserts (see `ConsumedItems.Upserted`).
- ItemEventHandler.UpdateBeforeCreate: shown only for data that carries a non-blank name, because the model refuses a nameless insert (see `ConsumedItems.Upserted`).
- String lengths count characters, not UTF-16 code units. zod's `.min`/`.max` and Mongoose's `maxlength` count code units, so a name of 60 emoji (120 code units) is refused by the source's validators but accepted by `Items.ParseItem`, `ConsumedItems.ParseConsumedItem` and the store bounds.
- `get-all-items.use-case.ts` is a pass-through to `ItemRepositories.ItemRepository.FindAll`.
- Replication.CreateMirrored: mirroring is proved only when each write's event is delivered and consumed before the next write, in order. `Replication.LostCreateDiverges` shows that a swallowed publish breaks it. Redelivery and reordering across writes are covered only through `ItemEventHandler.AppliedIdempotent` and `ItemEventHandler.UpdateBeforeCreate`.
- Replication.UpdateMirrored: the same delivery assumption.
- Replication.DeleteMirrored: the same delivery assumption.
