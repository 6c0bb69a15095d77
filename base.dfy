/** Identifiers and the outcome of a request handler. */
module Base {

  /** An opaque document identifier (a database ObjectId). Ids are only ever
      compared for equality; the store draws fresh ones from a counter. */
  type Id = nat

  datatype Option<+T> = None | Some(value: T) {
    /** The value, or `default` when absent (a schema default). */
    function GetOr(default: T): (r: T) {
      match this
      case Some(v) => v
      case None => default
    }
  }

  /** What a handler sends back: a payload (HTTP 200 or 201), or one of the
      error statuses the handlers produce (404, 403, 400). */
  datatype Response<+T> = Ok(payload: T) | NotFound | Forbidden | BadRequest

  /** A newly inserted document together with the id it was stored under. */
  datatype Created<+T> = Created(id: Id, doc: T)
}
