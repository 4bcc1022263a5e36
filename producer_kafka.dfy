/** The primary's Kafka module: a producer singleton that may be unset, and
    `publishItemEvent`, which validates an event and sends it as one message keyed by its
    item id. The broker is not modelled: whether a connect, send or disconnect succeeds
    is a parameter. */
module ProducerKafka {
  import opened Wrappers
  import opened JsonValues
  import opened Validation
  import opened ItemEvents

  /** A producer client; a failed connect leaves it unconnected. */
  datatype ProducerClient = ProducerClient(connected: bool)

  datatype PublishError =
    | NotInitialized
    | InvalidFormat(issues: seq<Issue>)
    | SendFailed

  datatype BrokerFailure = BrokerFailure

  function PublishErrorMessage(e: PublishError): string {
    match e
    case NotInitialized => "Kafka producer not initialized"
    case InvalidFormat(issues) => "Invalid event format: " + DescribeIssues(issues)
    case SendFailed => "Kafka send failed"
  }

  /** What `publishItemEvent(event)` resolves to, given the producer and whether the send goes through. */
  function Delivery(p: Option<ProducerClient>, event: Json, sendOk: bool): Outcome<PublishError> {
    if p.None? then Fail(NotInitialized)
    else match ParseEvent(event)
      case Err(issues) => Fail(InvalidFormat(issues))
      case Ok(_) => if p.value.connected && sendOk then Pass else Fail(SendFailed)
  }

  /** The one message a send carries: keyed by `itemId`, valued by the serialised event. */
  function MessageFor(event: Json): KafkaMessage {
    var id := Property(event, "itemId");
    KafkaMessage(if id.Some? && id.value.JString? then id.value.s else "", Document(event))
  }

  /** The messages that reach the topic. */
  function Delivered(p: Option<ProducerClient>, event: Json, sendOk: bool): seq<KafkaMessage> {
    if Delivery(p, event, sendOk).Pass? then [MessageFor(event)] else []
  }

  /** At most one message per publish, only for a valid event on a live producer, keyed by the
      event's item id and carrying the event itself. */
  lemma DeliverySpec(p: Option<ProducerClient>, event: Json, sendOk: bool)
    ensures p.None? ==> Delivery(p, event, sendOk) == Fail(NotInitialized) && Delivered(p, event, sendOk) == []
    ensures p.Some? && ParseEvent(event).Err? ==>
      Delivery(p, event, sendOk) == Fail(InvalidFormat(ParseEvent(event).error)) && Delivered(p, event, sendOk) == []
    ensures |Delivered(p, event, sendOk)| <= 1
    ensures Delivered(p, event, sendOk) != [] <==> p.Some? && p.value.connected && sendOk && ParseEvent(event).Ok?
    ensures Delivered(p, event, sendOk) != [] ==>
      && Delivered(p, event, sendOk)[0].key == ParseEvent(event).value.itemId
      && Delivered(p, event, sendOk)[0].value == Document(event)
  {
  }

  /** The module-level `producer` variable and the messages sent so far. */
  class KafkaProducer {
    var producer: Option<ProducerClient>
    var sent: seq<KafkaMessage>

    constructor ()
      ensures producer == None && sent == []
    {
      producer := None;
      sent := [];
    }

    /** `initializeKafkaProducer`: the producer is assigned before connecting, so a failed
        connect rejects but leaves it set. */
    method Initialize(connectOk: bool) returns (r: Outcome<BrokerFailure>)
      modifies this
      ensures producer == Some(ProducerClient(connectOk))
      ensures r.Pass? <==> connectOk
      ensures sent == old(sent)
    {
      producer := Some(ProducerClient(false));
      if !connectOk {
        return Fail(BrokerFailure);
      }
      producer := Some(ProducerClient(true));
      r := Pass;
    }

    /** `publishItemEvent`: rejects when unset, rejects an invalid event, otherwise sends once. */
    method PublishItemEvent(event: Json, sendOk: bool) returns (r: Outcome<PublishError>)
      modifies this
      ensures r == Delivery(old(producer), event, sendOk)
      ensures producer == old(producer)
      ensures sent == old(sent) + Delivered(old(producer), event, sendOk)
    {
      if producer.None? {
        return Fail(NotInitialized);
      }
      var validation := ParseEvent(event);
      if validation.Err? {
        return Fail(InvalidFormat(validation.error));
      }
      if !producer.value.connected || !sendOk {
        return Fail(SendFailed);
      }
      sent := sent + [MessageFor(event)];
      r := Pass;
    }

    /** `disconnectKafkaProducer`: nothing to do when unset; a completed disconnect unsets it. */
    method Disconnect(disconnectOk: bool) returns (r: Outcome<BrokerFailure>)
      modifies this
      ensures old(producer).None? ==> r.Pass? && producer.None?
      ensures old(producer).Some? ==> (r.Pass? <==> disconnectOk)
      ensures r.Pass? ==> producer.None?
      ensures r.Fail? ==> producer == old(producer)
      ensures sent == old(sent)
    {
      if producer.Some? {
        if !disconnectOk {
          return Fail(BrokerFailure);
        }
        producer := None;
      }
      r := Pass;
    }
  }
}
