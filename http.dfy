/** What the HTTP handlers receive and answer, without headers (CORS) or timestamps. */
module Http {
  import opened Text

  /** The outcome of reading and deserialising a request body. */
  datatype RequestBody<T> =
    | EmptyBody                     // no body, or the empty string
    | MalformedJson(message: string) // the deserialiser threw; `message` is the exception's text
    | NullJson                      // the body is the JSON literal null
    | Parsed(value: T)

  datatype ResponseBody<T> =
    | NoContent
    | Error(error: string, details: string)
    | Ok(value: T)

  datatype Response<T> = Response(status: int, body: ResponseBody<T>)

  /** `method.Equals("OPTIONS", StringComparison.OrdinalIgnoreCase)`, for ASCII spellings. */
  predicate IsPreflight(httpMethod: string) {
    Lower(httpMethod) == "options"
  }
}
