/**
 * The Python exceptions that reach the exporter's catch-all, and `str(e)`
 * of each.
 */
module Errors {
  import opened Text

  datatype Failure =
    /** `fastapi.HTTPException(status_code, detail)`, raised by the exporter and its HTTP clients. */
    | HttpError(status: int, detail: string)
    /** A `TypeError` raised by the interpreter or by ElementTree. */
    | TypeError(message: string)
    /** An `AttributeError`, e.g. a method called on `None`. */
    | AttributeError(message: string)
    /** A `ValueError`, e.g. from `float` or from the credential loaders. */
    | ValueError(message: string)
    /** Any other exception a collaborator raises, with its `str`. */
    | OtherError(message: string)

  /** `str(e)`: an HTTP exception prints as `"<status>: <detail>"`, the others as their message. */
  function Describe(f: Failure): string {
    match f
    case HttpError(status, detail) => IntToString(status) + ": " + detail
    case TypeError(m) => m
    case AttributeError(m) => m
    case ValueError(m) => m
    case OtherError(m) => m
  }
}
