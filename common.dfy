/**
 * Shared vocabulary: optional values, results that carry the Python
 * exception a call would raise, and bytes.
 */
module Common {

  /** Python's `None` or a value. */
  datatype Option<+T> = None | Some(value: T)

  /** The exceptions (or HTTP error replies) the modelled code raises. */
  datatype Error =
    | HttpError(status: int)   // requests' raise_for_status: a 4xx or 5xx reply
    | NotFound                 // FastAPI HTTPException(status_code=404)
    | JsonDecodeError          // a body or file that is not JSON
    | AttributeError           // `.get` on a JSON value that is not an object
    | TypeError                // arithmetic on None, item assignment on a non-dict
    | ValidationError          // pydantic rejecting a feature response
    | OverflowError            // date arithmetic before 0001-01-01

  /** A call either returns a value or raises. */
  datatype Result<+T> = Ok(value: T) | Err(error: Error)

  type Byte = b: int | 0 <= b < 256

  /** Whether a reply status makes requests' `raise_for_status` raise. */
  predicate RaisesForStatus(status: int) {
    400 <= status < 600
  }
}
