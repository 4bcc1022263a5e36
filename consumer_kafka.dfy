/** The consumer's Kafka module: the module-level `consumer` that initialisation sets and
    disconnection clears, and the `eachMessage` callback run over the messages of the
    topic one after another. The callback is the one the service registers, which
    hands every valid event to `handleItemEvent`. Whether the broker connects,
    subscribes or disconnects is a parameter. */
module ConsumerKafka {
  import opened Wrappers
  import opened Validation
  import opened ItemEvents
  import opened ConsumedItems
  import opened ItemEventHandler

  /** What `eachMessage` does with one message; none of them escapes the callback. */
  datatype MessageOutcome =
    | SkippedEmpty
    | SkippedUnparsable
    | SkippedInvalid(issues: seq<Issue>)
    | Handled
    | HandlerFailed(error: HandlerError)

  /** `eachMessage`: an absent or empty value and text `JSON.parse` refuses are skipped,
      as is an event the schema refuses; a valid one is handled once, and a handler
      error is caught. */
  function ProcessMessage(s: ReplicaState, m: KafkaMessage): (ReplicaState, MessageOutcome) {
    match m.value
    case NoValue => (s, SkippedEmpty)
    case EmptyText => (s, SkippedEmpty)
    case Malformed => (s, SkippedUnparsable)
    case Document(j) =>
      match ParseEvent(j)
      case Err(issues) => (s, SkippedInvalid(issues))
      case Ok(event) =>
        var (t, r) := Applied(s, event);
        (t, if r.Pass? then Handled else HandlerFailed(r.error))
  }

  /** The collection after the callback has run on every message, in order. */
  function ProcessAll(s: ReplicaState, msgs: seq<KafkaMessage>): ReplicaState
    decreases |msgs|
  {
    if msgs == [] then s
    else ProcessMessage(ProcessAll(s, msgs[..|msgs| - 1]), msgs[|msgs| - 1]).0
  }

  /** What the callback did with each message, in order. */
  function Outcomes(s: ReplicaState, msgs: seq<KafkaMessage>): seq<MessageOutcome>
    decreases |msgs|
  {
    if msgs == [] then []
    else Outcomes(s, msgs[..|msgs| - 1]) + [ProcessMessage(ProcessAll(s, msgs[..|msgs| - 1]), msgs[|msgs| - 1]).1]
  }

  datatype ConsumerClient = ConsumerClient(connected: bool, subscribed: bool)

  datatype BrokerFailure = BrokerFailure

  class KafkaConsumer {
    var consumer: Option<ConsumerClient>
    const items: ConsumedItemCollection

    constructor (items: ConsumedItemCollection)
      ensures consumer == None && this.items == items
    {
      consumer := None;
      this.items := items;
    }

    /** `initializeKafkaConsumer`: the consumer is assigned before it connects, then
        subscribes; either failure is re-thrown and leaves it set. */
    method Initialize(connectOk: bool, subscribeOk: bool) returns (r: Outcome<BrokerFailure>)
      modifies this
      ensures consumer == Some(ConsumerClient(connectOk, connectOk && subscribeOk))
      ensures r.Pass? <==> connectOk && subscribeOk
    {
      consumer := Some(ConsumerClient(false, false));
      if !connectOk {
        return Fail(BrokerFailure);
      }
      consumer := Some(ConsumerClient(true, false));
      if !subscribeOk {
        return Fail(BrokerFailure);
      }
      consumer := Some(ConsumerClient(true, true));
      r := Pass;
    }

    /** The `eachMessage` callback on one message. */
    method EachMessage(m: KafkaMessage) returns (outcome: MessageOutcome)
      requires items.Valid()
      modifies items
      ensures items.Valid()
      ensures (items.state, outcome) == ProcessMessage(old(items.state), m)
    {
      match m.value {
        case NoValue =>
          return SkippedEmpty;
        case EmptyText =>
          return SkippedEmpty;
        case Malformed =>
          return SkippedUnparsable;
        case Document(j) =>
          var validation := ParseEvent(j);
          if validation.Err? {
            return SkippedInvalid(validation.error);
          }
          var r := HandleItemEvent(items, validation.value);
          outcome := if r.Pass? then Handled else HandlerFailed(r.error);
      }
    }

    /** `consumer.run`: the callback on each message of the topic, one after another. */
    method Run(msgs: seq<KafkaMessage>) returns (outcomes: seq<MessageOutcome>)
      requires items.Valid()
      modifies items
      ensures items.Valid()
      ensures items.state == ProcessAll(old(items.state), msgs)
      ensures outcomes == Outcomes(old(items.state), msgs)
    {
      ghost var s0 := items.state;
      outcomes := [];
      for i := 0 to |msgs|
        invariant items.Valid()
        invariant items.state == ProcessAll(s0, msgs[..i])
        invariant outcomes == Outcomes(s0, msgs[..i])
      {
        assert msgs[..i + 1][..i] == msgs[..i];
        var outcome := EachMessage(msgs[i]);
        outcomes := outcomes + [outcome];
      }
      assert msgs[..|msgs|] == msgs;
    }

    /** `disconnectKafkaConsumer`: nothing to do when unset; a completed disconnect unsets it. */
    method Disconnect(disconnectOk: bool) returns (r: Outcome<BrokerFailure>)
      modifies this
      ensures old(consumer).None? ==> r.Pass? && consumer.None?
      ensures old(consumer).Some? ==> (r.Pass? <==> disconnectOk)
      ensures r.Pass? ==> consumer.None?
      ensures r.Fail? ==> consumer == old(consumer)
    {
      if consumer.Some? {
        if !disconnectOk {
          return Fail(BrokerFailure);
        }
        consumer := None;
      }
      r := Pass;
    }
  }

  // ---------------------------------------------------------------------------
  // Properties.

  /** A skipped message changes nothing; only a valid event reaches the handler, exactly once. */
  lemma ProcessMessageSpec(s: ReplicaState, m: KafkaMessage)
    ensures m.value.NoValue? || m.value.EmptyText? ==> ProcessMessage(s, m) == (s, SkippedEmpty)
    ensures m.value.Malformed? ==> ProcessMessage(s, m) == (s, SkippedUnparsable)
    ensures m.value.Document? && ParseEvent(m.value.json).Err? ==>
      ProcessMessage(s, m) == (s, SkippedInvalid(ParseEvent(m.value.json).error))
    ensures m.value.Document? && ParseEvent(m.value.json).Ok? ==>
      var e := ParseEvent(m.value.json).value;
      && ProcessMessage(s, m).0 == Applied(s, e).0
      && (ProcessMessage(s, m).1 == Handled <==> Applied(s, e).1.Pass?)
    ensures ProcessMessage(s, m).1.HandlerFailed? ==> ProcessMessage(s, m).0 == s
  {
    if m.value.Document? && ParseEvent(m.value.json).Ok? {
      var e := ParseEvent(m.value.json).value;
      match e.eventType {
        case ItemDeleted =>
        case _ =>
          if e.data.Some? {
            var raw := UpdateOf(e.data.value, e.timestamp);
            var (t, r) := Upserted(s, e.itemId, raw);
            if r.Err? {
              assert CastUpdate(raw).Err? || e.itemId == "" || !UpdateAccepted(TrimUpdate(CastUpdate(raw).value), IndexOfKey(s.rows, e.itemId).Some?);
            }
          }
      }
    }
  }

  /** Every message gets exactly one outcome: a bad message or a failing handler never stops
      the ones after it. */
  lemma {:induction false} EveryMessageProcessed(s: ReplicaState, msgs: seq<KafkaMessage>)
    ensures |Outcomes(s, msgs)| == |msgs|
    decreases |msgs|
  {
    if msgs != [] {
      EveryMessageProcessed(s, msgs[..|msgs| - 1]);
    }
  }

  /** The callback keeps the collection within the schema and the unique index. */
  lemma {:induction false} ProcessAllWellFormed(s: ReplicaState, msgs: seq<KafkaMessage>)
    requires WellFormed(s)
    ensures WellFormed(ProcessAll(s, msgs))
    decreases |msgs|
  {
    if msgs != [] {
      var front := msgs[..|msgs| - 1];
      ProcessAllWellFormed(s, front);
      var m := msgs[|msgs| - 1];
      if m.value.Document? && ParseEvent(m.value.json).Ok? {
        AppliedWellFormed(ProcessAll(s, front), ParseEvent(m.value.json).value);
      }
    }
  }

  /** Processing a batch and then another is processing them together. */
  lemma {:induction false} ProcessAllConcat(s: ReplicaState, xs: seq<KafkaMessage>, ys: seq<KafkaMessage>)
    ensures ProcessAll(s, xs + ys) == ProcessAll(ProcessAll(s, xs), ys)
    decreases |ys|
  {
    if ys != [] {
      var zs := xs + ys;
      assert zs[..|zs| - 1] == xs + ys[..|ys| - 1];
      ProcessAllConcat(s, xs, ys[..|ys| - 1]);
    } else {
      assert xs + ys == xs;
    }
  }

  /** Messages that are all skipped leave the collection as it was. */
  lemma {:induction false} SkippedMessagesChangeNothing(s: ReplicaState, msgs: seq<KafkaMessage>)
    requires forall i :: 0 <= i < |msgs| ==> msgs[i].value.NoValue? || msgs[i].value.EmptyText? || msgs[i].value.Malformed?
    ensures ProcessAll(s, msgs) == s
    decreases |msgs|
  {
    if msgs != [] {
      SkippedMessagesChangeNothing(s, msgs[..|msgs| - 1]);
    }
  }
}
