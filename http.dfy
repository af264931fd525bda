/** Vocabulary shared by every request handler: absent values, the way the
    handlers test header and body fields for truthiness, the `??` operator,
    the responses they send and the HTTP status codes they use. */
module Http {

  /** A header, query or body field that may be absent (undefined or null). */
  datatype Option<+T> = None | Some(value: T)

  /** A status code with the body sent along with it. */
  datatype Response<+B> = Response(status: int, body: B)

  const OK := 200
  const CREATED := 201
  const NO_CONTENT := 204
  const BAD_REQUEST := 400
  const FORBIDDEN := 403
  const NOT_FOUND := 404
  const CONFLICT := 409
  const PRECONDITION_FAILED := 412
  const PRECONDITION_REQUIRED := 428

  /** `if (v)` on a string field: absent values and the empty string are falsy. */
  predicate Truthy(v: Option<string>)
  {
    v.Some? && v.value != ""
  }

  /** `v ?? d`: only null and undefined fall back to `d`; a present "" is kept. */
  function Coalesce<T>(v: Option<T>, d: T): (r: T)
    ensures v.Some? ==> r == v.value
    ensures v.None? ==> r == d
  {
    match v
    case Some(x) => x
    case None => d
  }
}
