/** Values shared by every component: optional values, document ids and HTTP statuses. */
module Common {

  datatype Option<+T> = None | Some(value: T)

  /** What an update from a request body writes into one field: the body's
      value when the field is present, the stored value otherwise. */
  function KeepUnless<T>(field: Option<T>, current: T): T
  {
    if field.Some? then field.value else current
  }

  /** A document id (a MongoDB ObjectId). Ids are compared by value, as the
      handlers compare `toString()` forms. */
  type Id = nat

  /** The HTTP statuses the handlers answer with. */
  datatype Status =
    | Ok
    | Created
    | BadRequest
    | Unauthorized
    | Forbidden
    | NotFound
    | NotAcceptable
    | Conflict
    | Gone
    | UnprocessableEntity
    | InternalServerError
  {
    /** The numeric status code sent on the wire. */
    function Code(): (c: nat)
      ensures 200 <= c < 600
      ensures c < 300 <==> (this == Ok || this == Created)
    {
      match this
      case Ok => 200
      case Created => 201
      case BadRequest => 400
      case Unauthorized => 401
      case Forbidden => 403
      case NotFound => 404
      case NotAcceptable => 406
      case Conflict => 409
      case Gone => 410
      case UnprocessableEntity => 422
      case InternalServerError => 500
    }
  }
}
