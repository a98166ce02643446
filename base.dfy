/** Small shared vocabulary: an optional value and the shape of a handler's reply. */
module Base {

  datatype Option<+T> = None | Some(value: T)

  /**
   * What an Express handler sends back.
   *  - Ok(data): `res.send({ success: ..., data })` (the constant success text is not modelled);
   *  - Fail(status, error): `res.status(status).send({ error })` with one of the handler's literal messages;
   *  - Invalid(path): status 400 carrying the first Joi error, identified by the path of the key that failed;
   *  - Thrown: an exception or rejected promise left the handler (a store error, a failed save); the
   *    request is then answered, if at all, by code outside the handler.
   */
  datatype Reply<+T> =
    | Ok(data: T)
    | Fail(status: nat, error: string)
    | Invalid(path: seq<string>)
    | Thrown
}
