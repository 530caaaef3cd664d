/** Option, Result and the enumerations shared by several components of the model. */
module Options {
  datatype Option<+T> = None | Some(value: T) {
    function Or(other: T): T { if Some? then value else other }
  }

  datatype Result<+T> = Ok(value: T) | Err(error: Error)

  /** The error answers of the services, by meaning. */
  datatype Error =
    | NotFound
    | BadRequest
    | Conflict

  datatype DiscountKind = Percent | Fixed
}
