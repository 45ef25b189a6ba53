/** Optional values and results with an error, shared by every module of the model. */
module Common {

  /** A value that may be absent: `undefined` for an omitted field or argument, `null` for a
      nullable column. */
  datatype Option<T> = None | Some(value: T)

  /** The outcome of an operation that can throw: `Err` carries what was thrown. */
  datatype Result<T, E> = Ok(value: T) | Err(error: E)

  /** The HTTP status codes the handlers answer with. */
  const Ok200: int := 200
  const Created201: int := 201
  const NoContent204: int := 204
  const BadRequest400: int := 400
  const Unauthorized401: int := 401
  const Forbidden403: int := 403
  const NotFound404: int := 404
  /** The model's stand-in for a handler that throws (a failed schema validation): the source
      sends no status of its own, and the model writes the outcome as 500. */
  const Threw500: int := 500
}
