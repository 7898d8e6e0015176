/** The exceptions the modelled code throws, as values. */
module Exceptions {

  /** Errors raised by the database client. */
  datatype DbError =
    | UniqueConstraintViolation   // Prisma error code P2002
    | RecordNotFound              // Prisma error code P2025
    | OtherDbError(code: string)

  /** The HTTP exceptions the services and guards throw. */
  datatype HttpException =
    | UnauthorizedException(message: string)
    | TaskNotFoundException
    | ProjectNotFoundException
    | TagNotFoundException
    | UnprocessableEntityException
    | DatabaseError(cause: DbError)

  /** The message of `new UnauthorizedException()` without an argument. */
  const DefaultUnauthorizedMessage: string := "Unauthorized"
}
