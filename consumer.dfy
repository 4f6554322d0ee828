/** pkg/kafkaCon/consumer.go: a reader on one topic and `ConsumeMessages`,
    which retries failed fetches, hands the first fetched message to the
    handler, commits it and returns. The handler is one of the two closures the
    saga passes in, named by `Callback` together with what it needs from
    outside. */
module Consumer {
  import opened Wrappers
  import opened Kafka
  import opened ProductQueue
  import opened InventoryQueue
  import ProductService

  const ErrFailedToDecode := Error("error: failed to decode message")

  /** `DecodeMessage(obj, value)`: unmarshalling into `&obj` takes any
      well-formed JSON, so it fails on empty input and otherwise when
      encoding/json rejects the bytes (`unmarshal`); every failure is reported
      as the one fixed error. */
  function DecodeMessage(value: string, unmarshal: Option<Error>): (r: Option<Error>)
    ensures r.None? <==> value != [] && unmarshal.None?
    ensures r.Some? ==> r == Some(ErrFailedToDecode)
  {
    if value == [] || unmarshal.Some? then Some(ErrFailedToDecode) else None
  }

  /** What one `FetchMessage` gives: the message at an offset, an error, or
      nothing yet (the real call blocks until a message arrives). */
  datatype Fetch = Fetched(offset: nat, msg: Message) | FetchFailed(err: Error) | NothingYet

  /** How a `ConsumeMessages` call ends: the one message handled and how the
      handler's call ended, or still waiting for a message. */
  datatype Consumed = Handled(msg: Message, outcome: Outcome) | StillFetching

  /** The two handlers the saga passes to `ConsumeMessages`. */
  datatype Callback =
    | Listener(listener: ProductQueueHandler, listenerEnv: ListenerEnv)
    | Responder(responder: InventoryQueueHandler, responderEnv: ResponderEnv)

  /** The objects a handler may change. */
  function Footprint(cb: Callback): set<object> {
    match cb
    case Listener(h, _) => {h}
    case Responder(h, _) => {h, h.usecase.repo, h.broker}
  }

  ghost predicate CallbackValid(cb: Callback)
    reads if cb.Responder? then {cb.responder.usecase.repo} else {}
  {
    cb.Responder? ==> cb.responder.usecase.repo.Valid()
  }

  /** The calls a handler has received, each with how it ended. */
  ghost function HandledOf(cb: Callback): seq<(Message, Outcome)>
    reads if cb.Listener? then {cb.listener} else {cb.responder}
  {
    match cb
    case Listener(h, _) => h.handled
    case Responder(h, _) => h.handled
  }

  /** A `kafka.Reader` without a consumer group: `offset` is the next message
      to fetch, `committed` the offset committed so far. */
  class Reader {
    const broker: Broker
    const topic: string
    var offset: nat
    var committed: nat

    ghost predicate Valid()
      reads this, broker
    {
      offset <= |Log(broker.logs, topic)|
    }

    /** `kafka.NewReader` on `topic`: a reader starts at the first offset. */
    constructor (broker: Broker, topic: string)
      ensures Valid() && this.broker == broker && this.topic == topic && offset == 0 && committed == 0
    {
      this.broker := broker;
      this.topic := topic;
      offset := 0;
      committed := 0;
    }

    /** `FetchMessage(ctx)`: the next message of the topic, then the reader
        moves past it; an error moves nothing. */
    method FetchMessage(fault: Option<Error>) returns (f: Fetch)
      requires Valid()
      modifies this
      ensures Valid() && committed == old(committed)
      ensures fault.Some? ==> f == FetchFailed(fault.value) && offset == old(offset)
      ensures fault.None? && old(offset) < |Log(broker.logs, topic)| ==>
                f == Fetched(old(offset), Log(broker.logs, topic)[old(offset)]) && offset == old(offset) + 1
      ensures fault.None? && old(offset) == |Log(broker.logs, topic)| ==> f == NothingYet && offset == old(offset)
    {
      if fault.Some? {
        return FetchFailed(fault.value);
      }
      if offset == |Log(broker.logs, topic)| {
        return NothingYet;
      }
      f := Fetched(offset, Log(broker.logs, topic)[offset]);
      offset := offset + 1;
    }

    /** `CommitMessages(ctx, msg)` for the message at offset `at`: the
        committed offset moves past it and never back. */
    method CommitMessages(at: nat)
      modifies this
      ensures offset == old(offset)
      ensures committed == if at + 1 > old(committed) then at + 1 else old(committed)
    {
      if at + 1 > committed {
        committed := at + 1;
      }
    }

    /** `ConsumeMessages(ctx, handleMessage)`. Each fetch error (the sequence
        `fetchFaults`, in order) is logged and the loop goes round again, with
        no handler call and no commit. The first fetched message is given to
        the handler exactly once; once the handler returns, the message is
        committed whatever it returned, and the handler's error is returned.
        If no message is there the call is still fetching. */
    method ConsumeMessages(cb: Callback, fetchFaults: seq<Error>) returns (c: Consumed)
      requires Valid() && CallbackValid(cb)
      modifies this, Footprint(cb)
      ensures Valid() && CallbackValid(cb)
      ensures c.StillFetching? ==>
                old(offset) == |Log(old(broker.logs), topic)| && offset == old(offset)
                && committed == old(committed) && unchanged(Footprint(cb))
      ensures c.Handled? ==>
                old(offset) < |Log(old(broker.logs), topic)| && c.msg == Log(old(broker.logs), topic)[old(offset)]
                && offset == old(offset) + 1
                && HandledOf(cb) == old(HandledOf(cb)) + [(c.msg, c.outcome)]
                && committed == if c.outcome.Returned? && old(offset) + 1 > old(committed) then old(offset) + 1
                                else old(committed)
      ensures cb.Listener? ==> c.Handled? ==> c.outcome == ProductService.Compensation(c.msg, cb.listenerEnv.verdict)
      ensures cb.Responder? ==> c.Handled? ==>
                c.outcome.Returned?
                && (cb.responder.usecase.repo.inventories, cb.responder.broker.logs, c.outcome.err)
                   == Responded(old(cb.responder.usecase.repo.inventories), old(cb.responder.broker.logs), c.msg, cb.responderEnv)
    {
      var i := 0;
      while i < |fetchFaults|
        invariant 0 <= i <= |fetchFaults|
        invariant Valid() && offset == old(offset) && committed == old(committed)
        invariant unchanged(Footprint(cb)) && unchanged(broker)
      {
        var _ := FetchMessage(Some(fetchFaults[i]));
        i := i + 1;
      }
      var f := FetchMessage(None);
      if !f.Fetched? {
        return StillFetching;
      }
      ghost var logs := broker.logs;
      var o;
      match cb {
        case Listener(h, env) =>
          o := h.HandleMessage(f.msg, env);
        case Responder(h, env) =>
          var err := h.HandleMessage(f.msg, env);
          o := Returned(err);
      }
      GrowsLog(logs, broker.logs, topic);
      if o.Returned? {
        CommitMessages(f.offset);
      }
      return Handled(f.msg, o);
    }
  }
}
