/** Absent values and the ways a service call can end. */
module Wrappers {
  datatype Option<+T> = None | Some(value: T)

  /** The exceptions the services throw, by the class the caller sees. */
  datatype Failure =
    | NotFound         // NotFoundException, and Prisma's record-not-found errors
    | Conflict         // ConflictException, and unique-constraint violations
    | Forbidden        // ForbiddenException
    | Unauthorized     // UnauthorizedException
    | BadRequest       // BadRequestException
    | Dangling         // a foreign-key violation reported by the database

  datatype Result<+T> = Ok(value: T) | Err(failure: Failure)

  datatype Unit = Done
}
