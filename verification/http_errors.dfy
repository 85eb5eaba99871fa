/** The ways a request handler fails, grouped by the response they produce. */
module HttpErrors {

  /** Reasons for a 401 response. */
  datatype Denial = CannotCreateInvites | CannotDeleteInvites | CannotListInvites | CannotCreateEvents

  /** Reasons for a 400 response. */
  datatype Rejection =
    | AutoJoinDomain
    | DuplicateInvite
    | AlreadyMember
    | InviteNotFound
    | UserNotFound
    | InviteOfAnotherUser

  /** Storage exceptions that no handler catches, answered with a 500. */
  datatype Fault =
    | UniqueConstraint   // an insert collides with a unique key
    | RecordNotFound     // a delete matched no row
    | ForeignKeyViolation  // an insert refers to a row that does not exist

  datatype Failure = Unauthorized(denial: Denial) | BadRequest(rejection: Rejection) | ServerError(fault: Fault)
}
