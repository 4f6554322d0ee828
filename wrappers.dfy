/** Values shared by every module: Go's `error`, optional values and the
    ways a Go call can end. */
module Wrappers {

  /** An `error` value. For the errors the code and the Go libraries create,
      the message is what `err.Error()` prints; for errors the MongoDB server
      reports it is the part of the text that identifies the error. */
  datatype Error = Error(msg: string)

  /** A nilable value: `None` is Go's nil. An `Option<Error>` is a Go `error`. */
  datatype Option<+T> = None | Some(value: T)

  /** A value-or-error pair where exactly one side is set. */
  datatype Result<+T> = Ok(value: T) | Err(error: Error)

  /** How a Go call ends: it returns its `error`, or it never returns
      (unbounded recursion, which the Go runtime ends by aborting the process). */
  datatype Outcome = Returned(err: Option<Error>) | Diverged

  /** `err.Error()` of the sentinel `mongo.ErrNoDocuments`. */
  const ErrNoDocuments := Error("mongo: no documents in result")

  /** The duplicate-key error MongoDB reports when an `_id` is taken, by its
      code and name; the server's text goes on to name the collection, index
      and key. */
  const ErrDuplicateKey := Error("E11000 duplicate key error")

  /** The runtime error of dereferencing a nil pointer. */
  const ErrNilDereference := Error("runtime error: invalid memory address or nil pointer dereference")
}
