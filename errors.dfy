/** The errors the adapter framework reports to a caller. */
module Errors {

  /** `AdapterError` is an upstream failure (status 502 here); `AdapterInputError`
      rejects a client request (status 400). */
  datatype AdapterError =
    | AdapterError(statusCode: int, message: string)
    | AdapterInputError(statusCode: int, message: string)
}
