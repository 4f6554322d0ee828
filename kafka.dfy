/** The message bus: the topic and event-key names of pkg/kafkaCon/topics.go,
    the broker's append-only topic logs, and the producer of
    pkg/kafkaCon/producer.go, whose `Produce` appends one message. */
module Kafka {
  import opened Wrappers
  import Codec

  const ProductTopic: string := "product"
  const InventoryTopic: string := "inventory"
  const ProductCreatedEvent: string := "product-created"
  const ProductCreatedFailedEvent: string := "product-created-failed"
  const InventoryCreatedEvent: string := "inventory-created"
  const InventoryCreatedFailedEvent: string := "inventory-created-failed"
  const InventoryUpdatedEvent: string := "inventory-updated"
  const InventoryUpdatedFailedEvent: string := "inventory-update-failed"

  /** The event names are lower-case words joined by dashes, which JSON
      copies unchanged into a string. */
  lemma EventKeyIsPlain(key: string)
    requires key in {ProductCreatedEvent, ProductCreatedFailedEvent, InventoryCreatedEvent, InventoryCreatedFailedEvent,
                     InventoryUpdatedEvent, InventoryUpdatedFailedEvent}
    ensures forall i | 0 <= i < |key| :: Codec.IsPlainChar(key[i])
  {
    assert forall i | 0 <= i < |key| :: 'a' <= key[i] <= 'z' || key[i] == '-';
    forall i | 0 <= i < |key|
      ensures Codec.IsPlainChar(key[i])
    {
      SlugCharIsPlain(key[i]);
    }
  }

  lemma SlugCharIsPlain(c: char)
    requires 'a' <= c <= 'z' || c == '-'
    ensures Codec.IsPlainChar(c)
  {
  }

  /** A `kafka.Message` as the handlers see it: key and value bytes, here as
      text (every key and payload in the saga is ASCII). */
  datatype Message = Message(key: string, value: string)

  /** The log of a topic; a topic nobody wrote to is empty. */
  function Log(logs: map<string, seq<Message>>, topic: string): seq<Message> {
    if topic in logs then logs[topic] else []
  }

  /** Every topic's earlier log is a prefix of its later one: the broker only appends. */
  predicate Grows(before: map<string, seq<Message>>, after: map<string, seq<Message>>) {
    forall t | t in before :: t in after && before[t] <= after[t]
  }

  lemma GrowsLog(before: map<string, seq<Message>>, after: map<string, seq<Message>>, topic: string)
    requires Grows(before, after)
    ensures Log(before, topic) <= Log(after, topic)
  {
  }

  /** The logs after `m` is appended to `topic`. */
  function Appended(logs: map<string, seq<Message>>, topic: string, m: Message): (r: map<string, seq<Message>>)
    ensures Log(r, topic) == Log(logs, topic) + [m]
    ensures forall t | t != topic :: Log(r, t) == Log(logs, t)
    ensures Grows(logs, r)
  {
    logs[topic := Log(logs, topic) + [m]]
  }

  /** The broker: one append-only log per topic name. */
  class Broker {
    var logs: map<string, seq<Message>>

    constructor ()
      ensures logs == map[]
    {
      logs := map[];
    }
  }

  /** `kafkaCon.NewProducer(brokers, topic)`: a writer bound to one topic. */
  class Producer {
    const broker: Broker
    const topic: string

    constructor (broker: Broker, topic: string)
      ensures this.broker == broker && this.topic == topic
    {
      this.broker := broker;
      this.topic := topic;
    }

    /** `Produce(ctx, key, value)`: the write either appends exactly one
        message `{key, value}` to the topic or fails with `fault`, the
        writer's error, and appends nothing. */
    method Produce(key: string, value: string, fault: Option<Error>) returns (err: Option<Error>)
      modifies broker
      ensures err == fault
      ensures broker.logs == if fault.None? then Appended(old(broker.logs), topic, Message(key, value))
                             else old(broker.logs)
    {
      if fault.Some? {
        return fault;
      }
      broker.logs := Appended(broker.logs, topic, Message(key, value));
      return None;
    }
  }
}
