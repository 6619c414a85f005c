/**
 * Shared vocabulary of the task-tracking server: identifiers, roles, the
 * authenticated actor, the user record, and the outcome of a request.
 */
module Common {

  /** Document identifiers. Ids are compared for equality only. */
  type UserId = nat
  type TeamId = nat
  type TaskId = nat

  datatype Option<+T> = None | Some(value: T) {
    function GetOr(default: T): T {
      match this
      case Some(v) => v
      case None => default
    }
  }

  /** A user's role. The server branches on "manager" and "member"; any
      other role string falls through those branches. */
  datatype Role = Manager | Member | Other(name: string)

  /** The identity the auth guard attaches to a request. */
  datatype Actor = Actor(id: UserId, name: string, email: string, role: Role)

  /** A user record as stored; the password hash never leaves the store. */
  datatype User = User(name: string, email: string, passwordHash: string, role: Role)

  /** The HTTP status classes the handlers answer with. */
  datatype Code = BadRequest | Unauthorized | Forbidden | NotFound | ServerError

  datatype Failure = Failure(code: Code, message: string)

  datatype Result<+T> = Ok(value: T) | Err(failure: Failure)

  /** The message of the catch-all handler; reached here only through a
      schema validation failure on save. */
  const ServerErrorMessage := "Server error"

  /** roleCheck's rejection. Its source is not part of this model, so the
      text is a placeholder; only the 403 class is relied upon. */
  const RoleCheckMessage := "Access denied"

  /** The `roleCheck(role)` gate, run before a handler body. */
  function RoleCheck(actor: Actor, role: Role): (r: Option<Failure>)
    ensures r.None? <==> actor.role == role
    ensures r.Some? ==> r.value.code == Forbidden
  {
    if actor.role == role then None else Some(Failure(Forbidden, RoleCheckMessage))
  }
}
