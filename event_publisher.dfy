/** `KafkaEventPublisher`: the publisher the use cases are given. Each method makes one
    publish attempt and swallows its failure, so it always completes normally. */
module EventPublisher {
  import opened Wrappers
  import opened JsonValues
  import opened ItemEvents
  import opened ProducerKafka

  /** A publisher's event reaches the topic exactly when the producer is connected and the
      send goes through, as one message keyed by the item id. */
  lemma PublishedDelivered(p: Option<ProducerClient>, t: EventType, itemId: string, itemData: map<string, Json>,
                           now: string, sendOk: bool)
    ensures var event := PublishedEvent(t, itemId, itemData, now);
      Delivered(p, event, sendOk)
        == if p.Some? && p.value.connected && sendOk then [KafkaMessage(itemId, Document(event))] else []
  {
    PublishedEventValid(t, itemId, itemData, now);
  }

  class KafkaEventPublisher {
    const kafka: KafkaProducer

    constructor (kafka: KafkaProducer)
      ensures this.kafka == kafka
    {
      this.kafka := kafka;
    }

    method Publish(t: EventType, itemId: string, itemData: map<string, Json>, now: string, sendOk: bool)
      modifies kafka
      ensures kafka.producer == old(kafka.producer)
      ensures kafka.sent == old(kafka.sent) + Delivered(old(kafka.producer), PublishedEvent(t, itemId, itemData, now), sendOk)
    {
      var _ := kafka.PublishItemEvent(PublishedEvent(t, itemId, itemData, now), sendOk);
    }

    /** `publishItemCreated`: an `ITEM_CREATED` event with the id and data unchanged. */
    method PublishItemCreated(itemId: string, itemData: map<string, Json>, now: string, sendOk: bool)
      modifies kafka
      ensures kafka.producer == old(kafka.producer)
      ensures kafka.sent == old(kafka.sent) + Delivered(old(kafka.producer), PublishedEvent(ItemCreated, itemId, itemData, now), sendOk)
    {
      Publish(ItemCreated, itemId, itemData, now, sendOk);
    }

    /** `publishItemUpdated`: an `ITEM_UPDATED` event with the id and data unchanged. */
    method PublishItemUpdated(itemId: string, itemData: map<string, Json>, now: string, sendOk: bool)
      modifies kafka
      ensures kafka.producer == old(kafka.producer)
      ensures kafka.sent == old(kafka.sent) + Delivered(old(kafka.producer), PublishedEvent(ItemUpdated, itemId, itemData, now), sendOk)
    {
      Publish(ItemUpdated, itemId, itemData, now, sendOk);
    }

    /** `publishItemDeleted`: an `ITEM_DELETED` event, still carrying the data. */
    method PublishItemDeleted(itemId: string, itemData: map<string, Json>, now: string, sendOk: bool)
      modifies kafka
      ensures kafka.producer == old(kafka.producer)
      ensures kafka.sent == old(kafka.sent) + Delivered(old(kafka.producer), PublishedEvent(ItemDeleted, itemId, itemData, now), sendOk)
    {
      Publish(ItemDeleted, itemId, itemData, now, sendOk);
    }
  }
}
