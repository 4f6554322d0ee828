/** modules/product/service/queue.go: the product side's handling of events
    on the inventory topic. */
module ProductService {
  import opened Wrappers
  import opened ObjectIds
  import opened Kafka
  import opened Codec
  import opened InventoryRepository
  import opened ProductUsecase

  /** What handling one inventory-topic message amounts to. Only the key
      `inventory-created-failed` is acted on; for it a decode error or an id
      that is not 24 hex digits is returned before any rollback, and otherwise
      the rollback through the use case never returns. So the failure key never
      yields nil. `verdict` is the JSON decoder's answer for the payload. */
  function Compensation(msg: Message, verdict: Result<AddInventoryFailedEvent>): (o: Outcome)
    ensures msg.key != InventoryCreatedFailedEvent ==> o == Returned(None)
    ensures msg.key == InventoryCreatedFailedEvent && Deserialize(msg.value, verdict).Err? ==>
              o == Returned(Some(Deserialize(msg.value, verdict).error))
    ensures msg.key == InventoryCreatedFailedEvent && Deserialize(msg.value, verdict).Ok? ==>
              var id := ObjectIdFromHex(Deserialize(msg.value, verdict).value.productId);
              (id.Err? ==> o == Returned(Some(id.error))) && (id.Ok? ==> o == Diverged)
    ensures msg.key == InventoryCreatedFailedEvent ==> o != Returned(None)
    ensures msg.value == [] ==> o.Returned?
  {
    if msg.key != InventoryCreatedFailedEvent then Returned(None)
    else
      var req := Deserialize(msg.value, verdict);
      if req.Err? then Returned(Some(req.error))
      else
        var id := ObjectIdFromHex(req.value.productId);
        if id.Err? then Returned(Some(id.error)) else Diverged
  }

  /** `productQueueService`. */
  class ProductQueueService {
    const usecase: ProductUsecase

    constructor (usecase: ProductUsecase)
      ensures this.usecase == usecase
    {
      this.usecase := usecase;
    }

    /** `HandleInventoryEvent(msg)`: a switch on the key. `depth` is the stack
        available to the rollback's recursion. */
    method HandleInventoryEvent(msg: Message, verdict: Result<AddInventoryFailedEvent>, depth: nat) returns (o: Outcome)
      ensures o == Compensation(msg, verdict)
    {
      if msg.key == InventoryCreatedFailedEvent {
        o := HandleInventoryCreatedFailedEvent(msg, verdict, depth);
        return;
      }
      return Returned(None);
    }

    /** `HandleInventoryCreatedFailedEvent(msg)`; the use case's error, if the
        rollback ever returned, would be returned as is. */
    method HandleInventoryCreatedFailedEvent(msg: Message, verdict: Result<AddInventoryFailedEvent>, depth: nat) returns (o: Outcome)
      ensures o == Compensation(msg.(key := InventoryCreatedFailedEvent), verdict)
    {
      var req := Deserialize(msg.value, verdict);
      if req.Err? {
        return Returned(Some(req.error));
      }
      var id := ObjectIdFromHex(req.value.productId);
      if id.Err? {
        return Returned(Some(id.error));
      }
      o := usecase.RollbackProduct(id.value, depth);
    }
  }
}
