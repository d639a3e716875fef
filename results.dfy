/**
 Values and failures shared by the record store and the connection manager.
 Every operation of the broker either returns a value or throws; a thrown
 value is one of the kinds below.
 */
module Results {

  datatype Option<+T> = None | Some(value: T)

  /** What an operation throws. */
  datatype Error =
    | Coded(code: int)              // a thrown `{errorCode, error}` object
    | ConditionalCheckFailed        // the store's ConditionalCheckFailedException, rethrown untouched
    | ReferenceError(name: string)  // reading an identifier that is declared nowhere
    | TypeError                     // reading a property of `undefined`

  datatype Result<+T> = Ok(value: T) | Err(error: Error)

  const NotFound := 404
  const InternalError := 500
  const Unavailable := 503
}
