/** The HTTP vocabulary the handlers share: request methods and the status codes of Go's net/http. */
module Http {
  datatype Method = GET | HEAD | POST | PUT | PATCH | DELETE | OPTIONS | OtherMethod(name: string)

  const StatusOK: int := 200
  const StatusCreated: int := 201
  const StatusAccepted: int := 202
  const StatusNoContent: int := 204
  const StatusBadRequest: int := 400
  const StatusUnauthorized: int := 401
  const StatusForbidden: int := 403
  const StatusNotFound: int := 404
  const StatusConflict: int := 409
  const StatusPreconditionFailed: int := 412
  const StatusInternalServerError: int := 500
  const StatusNotImplemented: int := 501
}
