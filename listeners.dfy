/** The two consumer entry points of the saga: `CreateInventory` of
    modules/inventory/handler/queue.go, the responder on the product topic,
    and `HandleInventoryResponse` of modules/product/handler/queue.go, the
    compensation listener on the inventory topic. Each makes a new reader,
    which starts at the topic's first offset, and consumes one message. */
module Listeners {
  import opened Wrappers
  import opened Kafka
  import opened Consumer
  import opened ProductQueue
  import opened InventoryQueue
  import opened ProductService

  /** `inventoryQueueHandler.CreateInventory()`: the responder handles the
      first message ever written to the product topic, and the call returns
      that handler's error; with an empty topic it is still waiting. */
  method CreateInventory(h: InventoryQueueHandler, env: ResponderEnv, fetchFaults: seq<Error>) returns (c: Consumed)
    requires h.usecase.repo.Valid()
    modifies h, h.usecase.repo, h.broker
    ensures h.usecase.repo.Valid()
    ensures c.StillFetching? <==> Log(old(h.broker.logs), ProductTopic) == []
    ensures c.StillFetching? ==> unchanged(h, h.usecase.repo, h.broker)
    ensures c.Handled? ==>
              c.msg == Log(old(h.broker.logs), ProductTopic)[0] && c.outcome.Returned?
              && h.handled == old(h.handled) + [(c.msg, c.outcome)]
              && (h.usecase.repo.inventories, h.broker.logs, c.outcome.err)
                 == Responded(old(h.usecase.repo.inventories), old(h.broker.logs), c.msg, env)
  {
    var consumer := new Reader(h.broker, ProductTopic);
    c := consumer.ConsumeMessages(Responder(h, env), fetchFaults);
  }

  /** `productQueueHandler.HandleInventoryResponse(ctx)`: the listener handles
      the first message ever written to the inventory topic. Nothing but the
      handler's record of calls changes, so the product store is untouched
      whatever the message says. */
  method HandleInventoryResponse(h: ProductQueueHandler, env: ListenerEnv, fetchFaults: seq<Error>) returns (c: Consumed)
    modifies h
    ensures h.usecase.repo.products == old(h.usecase.repo.products)
    ensures c.StillFetching? <==> Log(h.broker.logs, InventoryTopic) == []
    ensures c.StillFetching? ==> h.handled == old(h.handled)
    ensures c.Handled? ==>
              c.msg == Log(h.broker.logs, InventoryTopic)[0] && c.outcome == Compensation(c.msg, env.verdict)
              && h.handled == old(h.handled) + [(c.msg, c.outcome)]
  {
    var consumer := new Reader(h.broker, InventoryTopic);
    c := consumer.ConsumeMessages(Listener(h, env), fetchFaults);
  }
}
