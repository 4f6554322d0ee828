/** The document store: `utils.Transaction` of utils/mongodb.go, which steps a
    session through start, transaction, run, abort or commit, and end, and the
    driver's per-collection insert and delete on a collection kept as a map
    from `_id` to document. */
module Mongo {
  import opened Wrappers
  import opened ObjectIds

  /** The session calls `Transaction` makes, in the order it makes them. */
  datatype Step = StartSession | StartTransaction | RunFn | AbortTransaction | CommitTransaction | EndSession

  /** What the server answers to the three session calls whose errors the
      code looks at (the error of `AbortTransaction` is discarded). */
  datatype SessionFaults = SessionFaults(startSession: Option<Error>, startTransaction: Option<Error>, commit: Option<Error>)

  /** `fn` is run exactly when both the session and its transaction start. */
  predicate RunsFn(f: SessionFaults) {
    f.startSession.None? && f.startTransaction.None?
  }

  /** How the closure passed to `Transaction` ends: it returns its error, or
      it panics. A panic unwinds past the abort, so only the deferred
      `EndSession` still runs; the model hands the panic's cause to the
      caller as the error. */
  datatype Exit = Normal(err: Option<Error>) | Panic(cause: Error)

  /** The calls one `Transaction` makes, given the faults and how `fn` ended. */
  function TransactionSteps(f: SessionFaults, exit: Exit): (t: seq<Step>)
    ensures |t| > 0 && t[0] == StartSession
    ensures f.startSession.Some? ==> t == [StartSession]
    ensures f.startSession.None? ==> t[|t| - 1] == EndSession
    ensures StartTransaction in t <==> f.startSession.None?
    ensures RunFn in t <==> RunsFn(f)
    ensures AbortTransaction in t <==> RunsFn(f) && exit.Normal? && exit.err.Some?
    ensures CommitTransaction in t <==> RunsFn(f) && exit == Normal(None)
  {
    if f.startSession.Some? then [StartSession]
    else if f.startTransaction.Some? then [StartSession, StartTransaction, EndSession]
    else if exit.Panic? then [StartSession, StartTransaction, RunFn, EndSession]
    else if exit.err.Some? then [StartSession, StartTransaction, RunFn, AbortTransaction, EndSession]
    else [StartSession, StartTransaction, RunFn, CommitTransaction, EndSession]
  }

  /** A started session is ended exactly once, by the last call, and abort
      or commit only ever follows the run of `fn`. */
  lemma SessionEndedOnce(f: SessionFaults, exit: Exit)
    requires f.startSession.None?
    ensures var t := TransactionSteps(f, exit);
            multiset(t)[EndSession] == 1
            && forall i, j | 0 <= i < j < |t| :: !(t[j] == RunFn && (t[i] == AbortTransaction || t[i] == CommitTransaction))
  {
    var t := TransactionSteps(f, exit);
    if f.startTransaction.Some? {
      assert t == [StartSession, StartTransaction, EndSession];
    } else if exit.Panic? {
      assert t == [StartSession, StartTransaction, RunFn, EndSession];
    } else {
      assert t[2] == RunFn && t[..2] + t[3..] == [StartSession, StartTransaction] + t[3..];
    }
  }

  /** The state `fn` leaves and the error `Transaction` returns. Both callers
      write with the outer context rather than the session context, so what
      `fn` wrote stays whether the transaction commits or aborts. */
  function TransactionResult<S>(fn: S -> (S, Exit), s: S, f: SessionFaults): (r: (S, Option<Error>))
    ensures !RunsFn(f) ==> r.0 == s
    ensures f.startSession.Some? ==> r.1 == f.startSession
    ensures f.startSession.None? && f.startTransaction.Some? ==> r.1 == f.startTransaction
    ensures RunsFn(f) ==> r.0 == fn(s).0
    ensures RunsFn(f) && fn(s).1.Panic? ==> r.1 == Some(fn(s).1.cause)
    ensures RunsFn(f) && fn(s).1.Normal? && fn(s).1.err.Some? ==> r.1 == fn(s).1.err
    ensures RunsFn(f) && fn(s).1 == Normal(None) ==> r.1 == f.commit
  {
    if f.startSession.Some? then (s, f.startSession)
    else if f.startTransaction.Some? then (s, f.startTransaction)
    else
      var (s', e) := fn(s);
      match e
      case Panic(cause) => (s', Some(cause))
      case Normal(err) => if err.Some? then (s', err) else (s', f.commit)
  }

  /** A `*mongo.Client`; `steps` records every session call made through it. */
  class Client {
    var steps: seq<Step>

    constructor ()
      ensures steps == []
    {
      steps := [];
    }

    /** `Transaction(ctx, db, fn)`. */
    method Transaction<S>(fn: S -> (S, Exit), s: S, f: SessionFaults) returns (s': S, err: Option<Error>)
      modifies this
      ensures steps == old(steps) + TransactionSteps(f, fn(s).1)
      ensures (s', err) == TransactionResult(fn, s, f)
    {
      steps := steps + [StartSession];
      if f.startSession.Some? {
        return s, f.startSession;
      }
      s' := s;
      steps := steps + [StartTransaction];
      if f.startTransaction.Some? {
        err := f.startTransaction;
      } else {
        steps := steps + [RunFn];
        var e;
        s', e := fn(s).0, fn(s).1;
        if e.Panic? {
          err := Some(e.cause);
        } else if e.err.Some? {
          steps := steps + [AbortTransaction];
          err := e.err;
        } else {
          steps := steps + [CommitTransaction];
          err := f.commit;
        }
      }
      steps := steps + [EndSession];
    }
  }

  /** `collection.InsertOne(ctx, doc)` with `_id` = `id`: a fault or an `id`
      already present fails and leaves the collection as it was; otherwise
      exactly the one document is added. */
  function InsertOne<D>(docs: map<ObjectId, D>, id: ObjectId, doc: D, fault: Option<Error>): (r: (map<ObjectId, D>, Option<Error>))
    ensures r.1.None? <==> fault.None? && id !in docs
    ensures fault.Some? ==> r.1 == fault
    ensures fault.None? && id in docs ==> r.1 == Some(ErrDuplicateKey)
    ensures r.1.Some? ==> r.0 == docs
    ensures r.1.None? ==> r.0.Keys == docs.Keys + {id} && r.0[id] == doc
                          && forall k | k in docs :: r.0[k] == docs[k]
  {
    if fault.Some? then (docs, fault)
    else if id in docs then (docs, Some(ErrDuplicateKey))
    else (docs[id := doc], None)
  }

  /** `collection.DeleteOne(ctx, {"_id": id})`: the store after the call and,
      unless the call failed, its `DeletedCount`. */
  function DeleteOne<D>(docs: map<ObjectId, D>, id: ObjectId, fault: Option<Error>): (r: (map<ObjectId, D>, Result<nat>))
    ensures fault.Some? ==> r == (docs, Err(fault.value))
    ensures fault.None? ==> r.1.Ok? && (r.1.value == 1 <==> id in docs) && (r.1.value == 0 <==> id !in docs)
    ensures r.1.Ok? ==> r.0 == docs - {id}
  {
    if fault.Some? then (docs, Err(fault.value))
    else if id in docs then (docs - {id}, Ok(1))
    else (docs, Ok(0))
  }

  /** The pattern both repositories use on a delete: the driver error, else the
      given not-found error when nothing was deleted, else success; only a
      successful call changes the collection, and it removes exactly `id`. */
  function DeleteById<D>(docs: map<ObjectId, D>, id: ObjectId, fault: Option<Error>, notFound: Error): (r: (map<ObjectId, D>, Option<Error>))
    ensures r.1.None? <==> fault.None? && id in docs
    ensures fault.Some? ==> r.1 == fault
    ensures fault.None? && id !in docs ==> r.1 == Some(notFound)
    ensures r.1.Some? ==> r.0 == docs
    ensures r.1.None? ==> id !in r.0 && r.0.Keys == docs.Keys - {id} && forall k | k in r.0 :: r.0[k] == docs[k]
  {
    var (docs', res) := DeleteOne(docs, id, fault);
    if res.Err? then (docs', Some(res.error))
    else if res.value == 0 then (docs', Some(notFound))
    else (docs', None)
  }
}
