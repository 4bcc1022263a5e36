/** The older functional publishers: the same three events, each published once with any
    failure swallowed. */
module KafkaEventService {
  import opened JsonValues
  import opened ItemEvents
  import opened ProducerKafka

  /** `publishItemCreatedEvent` */
  method PublishItemCreatedEvent(kafka: KafkaProducer, itemId: string, itemData: map<string, Json>, now: string, sendOk: bool)
    modifies kafka
    ensures kafka.producer == old(kafka.producer)
    ensures kafka.sent == old(kafka.sent) + Delivered(old(kafka.producer), PublishedEvent(ItemCreated, itemId, itemData, now), sendOk)
  {
    var outcome := kafka.PublishItemEvent(PublishedEvent(ItemCreated, itemId, itemData, now), sendOk);
  }

  /** `publishItemUpdatedEvent` */
  method PublishItemUpdatedEvent(kafka: KafkaProducer, itemId: string, itemData: map<string, Json>, now: string, sendOk: bool)
    modifies kafka
    ensures kafka.producer == old(kafka.producer)
    ensures kafka.sent == old(kafka.sent) + Delivered(old(kafka.producer), PublishedEvent(ItemUpdated, itemId, itemData, now), sendOk)
  {
    var outcome := kafka.PublishItemEvent(PublishedEvent(ItemUpdated, itemId, itemData, now), sendOk);
  }

  /** `publishItemDeletedEvent` */
  method PublishItemDeletedEvent(kafka: KafkaProducer, itemId: string, itemData: map<string, Json>, now: string, sendOk: bool)
    modifies kafka
    ensures kafka.producer == old(kafka.producer)
    ensures kafka.sent == old(kafka.sent) + Delivered(old(kafka.producer), PublishedEvent(ItemDeleted, itemId, itemData, now), sendOk)
  {
    var outcome := kafka.PublishItemEvent(PublishedEvent(ItemDeleted, itemId, itemData, now), sendOk);
  }
}
