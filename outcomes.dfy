/** Result shapes shared by every helper: an optional value, the two exception
    kinds the helpers raise, and the "message instead of a row" reply that some
    helpers return in place of raising. */
module Outcomes {

  datatype Option<+T> = None | Some(value: T)

  /** The exceptions a helper raises: ValueError for rejected input and missing
      rows, RuntimeError for a failed commit. Messages are the literal prefixes
      the helpers use; the text of the underlying database exception is not part
      of the model. */
  datatype Error = ValueError(message: string) | RuntimeError(message: string)

  datatype Result<+T> = Ok(value: T) | Err(error: Error)

  /** Some helpers answer a missing row or a rejected argument by RETURNING a
      message string rather than raising: `Message` is that answer. */
  datatype Reply<+T> = Value(value: T) | Message(text: string)

  /** What one helper call answers together with the tables it leaves behind. */
  datatype Outcome<+R, +S> = Outcome(reply: R, state: S)

  /** How the final `db.session.commit()` of a helper call ends. Helpers that
      catch `IntegrityError` separately answer it with their own message. */
  datatype Commit = Committed | IntegrityViolation | StoreFailure
}
