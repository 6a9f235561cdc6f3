/** Failure-carrying results shared by every service of the model. */
module Common {

  datatype Option<+T> = None | Some(value: T) {
    function GetOr(default: T): T {
      match this
      case Some(v) => v
      case None => default
    }
  }

  /** The exceptions the services throw, one constructor per kind. */
  datatype Error =
    | NotFound        // NotFoundException: order, station or user missing
    | Forbidden       // ForbiddenException: caller does not own the order
    | BadState        // BadStateException: transition not allowed from this status
    | AlreadyExists   // AlreadyExistsException: duplicate station name
    | LockTimeout     // RuntimeException: the per-station lock was not acquired
    | IllegalState    // IllegalStateException: id generation exhausted, or slot status missing
    | NullValue       // NullPointerException on a field the code dereferences without a check

  datatype Result<+T> = Ok(value: T) | Err(error: Error)
}
