/** HTTP status codes and the response shape every handler of the model returns. */
module Http {

  const StatusOK: nat := 200
  const StatusCreated: nat := 201
  const StatusNoContent: nat := 204
  const StatusBadRequest: nat := 400
  const StatusUnauthorized: nat := 401
  const StatusForbidden: nat := 403
  const StatusNotFound: nat := 404
  const StatusInternalServerError: nat := 500

  /**
   * A handler's answer: an error status with the `{"error": ...}` body, a
   * status with a typed payload, or a bare status with no body (gin's
   * `AbortWithStatus`, which the panic recovery also uses).
   */
  datatype Response<+T> = Fail(status: nat, error: string) | Reply(status: nat, body: T) | Aborted(status: nat)

  /**
   * The prefix of every binding failure; the validator's own description
   * of the failed field follows it and is not modelled.
   */
  const InvalidRequestData: string := "Invalid request data: "

  /** The database's unique-violation message, which handlers append to their own text. */
  const UniqueViolation: string := "duplicate key value violates unique constraint"
}
