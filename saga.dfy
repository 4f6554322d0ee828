/** The product-creation saga in steps: the product side publishes
    `product-created`, the responder consumes the product topic, and the
    listener consumes the inventory topic. Both events are sent with
    JSON-quoted keys and both handlers compare against the bare names, so what
    one step leaves on a topic meets the precondition of the next step's
    "ignored" case: neither handler ever acts on the other side's event. */
module Saga {
  import opened Wrappers
  import opened ObjectIds
  import opened Kafka
  import opened Codec
  import Mongo
  import opened ProductRepository
  import opened InventoryRepository
  import opened ProductService
  import opened ProductQueue
  import opened InventoryQueue
  import opened Consumer
  import Listeners

  /** The responder leaves the records and the logs alone on the event the
      product side publishes, and reports no error. */
  lemma ProductCreatedEventIsIgnored(inventories: map<ObjectId, Inventory>, logs: map<string, seq<Message>>,
                                     id: ObjectId, quantity: int, env: ResponderEnv)
    ensures Responded(inventories, logs, ProductCreatedMessage(id, quantity), env) == (inventories, logs, None)
  {
  }

  /** The listener's handler returns nil on the failure event the responder
      publishes, so it never rolls the product back. */
  lemma FailureEventNeverCompensates(productId: ObjectId, verdict: Result<AddInventoryFailedEvent>)
    ensures Compensation(InventoryCreatedFailedMessage(productId), verdict) == Returned(None)
  {
  }

  /** A product created with a publish that goes through, onto an empty
      product topic: unless the create failed, the topic then holds exactly the
      `product-created` event and the product is stored. */
  method PublishOnEmptyTopic(product: ProductQueueHandler, req: CreateProductReq, newId: ObjectId, f: Mongo.SessionFaults)
    returns (err: Option<Error>)
    requires Log(product.broker.logs, ProductTopic) == []
    requires product.usecase.repo.Valid()
    modifies product.usecase.repo, product.usecase.repo.db, product.broker
    ensures product.usecase.repo.Valid()
    ensures err.None? ==> newId in product.usecase.repo.products
                          && Log(product.broker.logs, ProductTopic) == [ProductCreatedMessage(newId, req.quantity)]
  {
    var listening;
    err, listening := product.CreateProduct(req, newId, None, f, None);
  }

  /** The responder started on a product topic that holds one message whose
      key is not the bare `product-created`: it handles that message, returns
      nil and records nothing. */
  method ReserveOnlyEvent(inventory: InventoryQueueHandler, m: Message, env: ResponderEnv) returns (c: Consumed)
    requires Log(inventory.broker.logs, ProductTopic) == [m] && m.key != ProductCreatedEvent
    requires inventory.usecase.repo.Valid()
    modifies inventory, inventory.usecase.repo, inventory.broker
    ensures c == Handled(m, Returned(None))
    ensures inventory.usecase.repo.inventories == old(inventory.usecase.repo.inventories)
  {
    c := Listeners.CreateInventory(inventory, env, []);
  }

  /** The responder given a decoded `product-created` message under the bare
      key whose insert fails, with an empty inventory topic and a publish that
      goes through: the topic then holds exactly the failure event. */
  method FailOnEmptyTopic(inventory: InventoryQueueHandler, msg: Message, env: ResponderEnv)
    returns (err: Option<Error>)
    requires Log(inventory.broker.logs, InventoryTopic) == []
    requires inventory.usecase.repo.Valid()
    requires msg.key == ProductCreatedEvent && Deserialize(msg.value, env.verdict).Ok?
    requires env.insertFault.Some? && env.publishFault.None?
    modifies inventory, inventory.usecase.repo, inventory.broker
    ensures err == None
    ensures inventory.usecase.repo.inventories == old(inventory.usecase.repo.inventories)
    ensures Log(inventory.broker.logs, InventoryTopic)
            == [InventoryCreatedFailedMessage(Deserialize(msg.value, env.verdict).value.productId)]
  {
    err := inventory.HandleMessage(msg, env);
  }

  /** The listener started on an inventory topic that holds one message
      whose key is not the bare `inventory-created-failed`: it handles that
      message, returns nil, and the product store is unchanged. */
  method CompensateOnlyEvent(product: ProductQueueHandler, m: Message, env: ListenerEnv) returns (c: Consumed)
    requires Log(product.broker.logs, InventoryTopic) == [m] && m.key != InventoryCreatedFailedEvent
    modifies product
    ensures c == Handled(m, Returned(None))
    ensures product.usecase.repo.products == old(product.usecase.repo.products)
  {
    c := Listeners.HandleInventoryResponse(product, env, []);
  }

  /** Rolling a product back twice: the second call finds nothing. */
  method RollbackTwice(repo: ProductRepository, id: ObjectId) returns (first: Option<Error>, second: Option<Error>)
    requires repo.Valid() && id in repo.products
    modifies repo
    ensures first == None && second == Some(ErrProductNotFound)
    ensures repo.products == old(repo.products) - {id}
  {
    first := repo.RollbackProduct(id, None);
    second := repo.RollbackProduct(id, None);
  }
}
