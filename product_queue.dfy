/** modules/product/handler/queue.go: the product side of the saga. Creating
    a product writes it in a transaction, publishes `product-created`, and
    then starts a listener on the inventory topic whose handler rolls the
    product back on `inventory-created-failed`. */
module ProductQueue {
  import opened Wrappers
  import opened ObjectIds
  import opened Kafka
  import opened Codec
  import Mongo
  import opened ProductRepository
  import opened InventoryRepository
  import opened ProductUsecase
  import opened ProductService

  /** What the listener's handler needs from outside: the decoder's verdict
      on a payload and the stack available to the rollback's recursion. */
  datatype ListenerEnv = ListenerEnv(verdict: Result<AddInventoryFailedEvent>, depth: nat)

  /** The event `CreateProduct` publishes: the key is the JSON string of
      `product-created`, quotes included, and the payload carries the new
      product's id in hex and the requested quantity. */
  function ProductCreatedMessage(id: ObjectId, quantity: int): (m: Message)
    ensures m.key == "\"" + ProductCreatedEvent + "\"" && m.key != ProductCreatedEvent
    ensures m.value == "{\"product_id\":" + ("\"" + Hex(id) + "\"") + ",\"quantity\":" + Decimal(quantity) + "}"
  {
    HexIsPlain(Hex(id));
    EventKeyIsPlain(ProductCreatedEvent);
    assert SerializeString(ProductCreatedEvent) == "\"" + ProductCreatedEvent + "\"";
    Message(SerializeString(ProductCreatedEvent), SerializeProductCreated(Hex(id), quantity))
  }

  /** `productQueueHandler`; `handled` records each message the listener's
      handler was given and how that call ended. */
  class ProductQueueHandler {
    const usecase: ProductUsecase
    const broker: Broker
    ghost var handled: seq<(Message, Outcome)>

    constructor (usecase: ProductUsecase, broker: Broker)
      ensures this.usecase == usecase && this.broker == broker && handled == []
    {
      this.usecase := usecase;
      this.broker := broker;
      handled := [];
    }

    /** `CreateProduct(req)`. A failed create publishes nothing and returns
        its error. Otherwise exactly one `product-created` message is appended
        to the product topic, or the publish error is returned and the product
        that was written stays. `listening` tells whether the compensation
        listener is started, which happens only after a successful publish. */
    method CreateProduct(req: CreateProductReq, newId: ObjectId, insertFault: Option<Error>, f: Mongo.SessionFaults,
                         publishFault: Option<Error>)
      returns (err: Option<Error>, listening: bool)
      requires usecase.repo.Valid()
      modifies usecase.repo, usecase.repo.db, broker
      ensures usecase.repo.Valid()
      ensures usecase.repo.products == CreatedInTransaction(old(usecase.repo.products), req, newId, insertFault, f).0
      ensures var created := CreatedInTransaction(old(usecase.repo.products), req, newId, insertFault, f).2;
              created.Some? ==> err == created && broker.logs == old(broker.logs) && !listening
      ensures var created := CreatedInTransaction(old(usecase.repo.products), req, newId, insertFault, f).2;
              created.None? ==> err == publishFault && listening == publishFault.None?
                                && broker.logs == if publishFault.None?
                                                  then Appended(old(broker.logs), ProductTopic, ProductCreatedMessage(newId, req.quantity))
                                                  else old(broker.logs)
    {
      var newProduct;
      newProduct, err := usecase.CreateProductWithTransaction(req, newId, insertFault, f);
      if err.Some? {
        return err, false;
      }
      var e := PublishCreated(newProduct.value.id, req.quantity, publishFault);
      if e.Some? {
        return e, false;
      }
      return None, true;
    }

    /** The publish step of `CreateProduct`: a producer on the product topic
        sends the serialised key and payload of the new product. */
    method PublishCreated(id: ObjectId, quantity: int, publishFault: Option<Error>) returns (err: Option<Error>)
      modifies broker
      ensures err == publishFault
      ensures broker.logs == if publishFault.None? then Appended(old(broker.logs), ProductTopic, ProductCreatedMessage(id, quantity))
                             else old(broker.logs)
    {
      var producer := new Producer(broker, ProductTopic);
      var payload := SerializeProductCreated(Hex(id), quantity);
      var key := SerializeString(ProductCreatedEvent);
      err := producer.Produce(key, payload, publishFault);
    }

    /** The `handleMessage` closure of `HandleInventoryResponse`: the same
        dispatch as the product queue service, written out again in the handler. */
    method HandleMessage(msg: Message, env: ListenerEnv) returns (o: Outcome)
      modifies this
      ensures o == Compensation(msg, env.verdict)
      ensures handled == old(handled) + [(msg, o)]
    {
      if msg.key == InventoryCreatedFailedEvent {
        var req := Deserialize(msg.value, env.verdict);
        if req.Err? {
          o := Returned(Some(req.error));
        } else {
          var id := ObjectIdFromHex(req.value.productId);
          if id.Err? {
            o := Returned(Some(id.error));
          } else {
            o := usecase.RollbackProduct(id.value, env.depth);
          }
        }
      } else {
        o := Returned(None);
      }
      handled := handled + [(msg, o)];
    }
  }
}
