/** modules/inventory/handler/queue.go: the inventory side of the saga, a
    responder on the product topic that records the inventory of each created
    product and publishes `inventory-created-failed` when it cannot. */
module InventoryQueue {
  import opened Wrappers
  import opened ObjectIds
  import opened Kafka
  import opened Codec
  import opened InventoryRepository
  import opened InventoryUsecase

  /** What the responder's handler needs from outside: the decoder's verdict
      on a payload, the id the driver generates for the insert, and the
      faults of the insert and of the publish. */
  datatype ResponderEnv = ResponderEnv(verdict: Result<AddInventoryReq>, newId: ObjectId,
                                       insertFault: Option<Error>, publishFault: Option<Error>)

  /** The failure event: the key is the JSON string of
      `inventory-created-failed`, quotes included, and the payload's one field
      is written under its Go name `ProductID`. */
  function InventoryCreatedFailedMessage(productId: ObjectId): (m: Message)
    ensures m.key == "\"" + InventoryCreatedFailedEvent + "\"" && m.key != InventoryCreatedFailedEvent
    ensures m.value == "{\"ProductID\":" + ("\"" + Hex(productId) + "\"") + "}"
  {
    HexIsPlain(Hex(productId));
    EventKeyIsPlain(InventoryCreatedFailedEvent);
    Message(SerializeString(InventoryCreatedFailedEvent), SerializeInventoryCreatedFailed(Hex(productId)))
  }

  /** What the responder's handler does with one message, given the
      inventory records and the topic logs before it: the records and logs
      after it and the error it returns. A key other than `product-created`
      and a payload that does not decode change nothing (the latter returns the
      decode error); a decoded request goes on to `Reserved`. */
  function Responded(inventories: Store, logs: map<string, seq<Message>>, msg: Message, env: ResponderEnv)
    : (r: (Store, map<string, seq<Message>>, Option<Error>))
    ensures Grows(logs, r.1)
    ensures Keyed(inventories) ==> Keyed(r.0)
    ensures msg.key != ProductCreatedEvent ==> r == (inventories, logs, None)
    ensures msg.key == ProductCreatedEvent && Deserialize(msg.value, env.verdict).Err? ==>
              r == (inventories, logs, Some(Deserialize(msg.value, env.verdict).error))
    ensures msg.key == ProductCreatedEvent && Deserialize(msg.value, env.verdict).Ok? ==>
              r == Reserved(inventories, logs, Deserialize(msg.value, env.verdict).value, env)
  {
    if msg.key != ProductCreatedEvent then (inventories, logs, None)
    else
      var req := Deserialize(msg.value, env.verdict);
      if req.Err? then (inventories, logs, Some(req.error))
      else Reserved(inventories, logs, req.value, env)
  }

  /** The decoded request is inserted exactly once; success returns nil and
      publishes nothing; failure publishes one failure event to the inventory
      topic and returns the publish error, which is nil once the event is out:
      the insert error, shadowed, is never returned. */
  function Reserved(inventories: Store, logs: map<string, seq<Message>>, req: AddInventoryReq, env: ResponderEnv)
    : (r: (Store, map<string, seq<Message>>, Option<Error>))
    ensures Grows(logs, r.1)
    ensures Keyed(inventories) ==> Keyed(r.0)
    ensures r.0 == Added(inventories, req, env.newId, env.insertFault).0
    ensures Added(inventories, req, env.newId, env.insertFault).2.None? ==> r.1 == logs && r.2 == None
    ensures Added(inventories, req, env.newId, env.insertFault).2.Some? ==>
              r.2 == env.publishFault
              && r.1 == if env.publishFault.None?
                        then Appended(logs, InventoryTopic, InventoryCreatedFailedMessage(req.productId))
                        else logs
  {
    var (inventories', _, err) := Added(inventories, req, env.newId, env.insertFault);
    if err.None? then (inventories', logs, None)
    else if env.publishFault.Some? then (inventories', logs, env.publishFault)
    else (inventories', Appended(logs, InventoryTopic, InventoryCreatedFailedMessage(req.productId)), None)
  }

  /** `inventoryQueueHandler`; `handled` records each message the responder's
      handler was given and how that call ended. */
  class InventoryQueueHandler {
    const usecase: InventoryUsecase
    const broker: Broker
    ghost var handled: seq<(Message, Outcome)>

    constructor (usecase: InventoryUsecase, broker: Broker)
      ensures this.usecase == usecase && this.broker == broker && handled == []
    {
      this.usecase := usecase;
      this.broker := broker;
      handled := [];
    }

    /** The closure `CreateInventory` hands to the consumer. */
    method HandleMessage(msg: Message, env: ResponderEnv) returns (err: Option<Error>)
      requires usecase.repo.Valid()
      modifies this, usecase.repo, broker
      ensures usecase.repo.Valid()
      ensures handled == old(handled) + [(msg, Returned(err))]
      ensures (usecase.repo.inventories, broker.logs, err)
              == Responded(old(usecase.repo.inventories), old(broker.logs), msg, env)
    {
      if msg.key == ProductCreatedEvent {
        var req := Deserialize(msg.value, env.verdict);
        if req.Err? {
          err := Some(req.error);
        } else {
          err := Reserve(req.value, env);
        }
      } else {
        err := None;
      }
      handled := handled + [(msg, Returned(err))];
    }

    /** The decoded branch of the closure: the insert, then on failure the event. */
    method Reserve(req: AddInventoryReq, env: ResponderEnv) returns (err: Option<Error>)
      requires usecase.repo.Valid()
      modifies usecase.repo, broker
      ensures usecase.repo.Valid()
      ensures (usecase.repo.inventories, broker.logs, err) == Reserved(old(usecase.repo.inventories), old(broker.logs), req, env)
    {
      var _, e := usecase.AddInventory(req, env.newId, env.insertFault);
      if e.None? {
        return None;
      }
      var producer := new Producer(broker, InventoryTopic);
      var failurePayload := SerializeInventoryCreatedFailed(Hex(req.productId));
      var key := SerializeString(InventoryCreatedFailedEvent);
      assert Message(key, failurePayload) == InventoryCreatedFailedMessage(req.productId);
      err := producer.Produce(key, failurePayload, env.publishFault);
    }
  }
}
