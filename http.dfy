/**
 * What the agent sees of an HTTP exchange: the request fields its handlers
 * read and the response they write.
 */
module Http {
  import opened Wrappers
  import opened Bytes

  const MethodGet := "GET"
  const MethodPost := "POST"

  /** A file part of a multipart form: its file name and its bytes, `None` when they cannot be read. */
  datatype FormFile = FormFile(filename: string, content: Option<seq<byte>>)

  /** The request body: its bytes, or the message of the error reading it failed with. */
  datatype Body = Body(bytes: seq<byte>) | Unreadable(reason: string)

  /**
   * A request: method (the verb), path, the peer's "host:port", the first value of each
   * query parameter (already unescaped), the body and the file parts of its
   * multipart form (none when the request carries no such form).
   */
  datatype Request = Request(
    verb: string,
    path: string,
    remoteAddr: string,
    query: map<string, string>,
    body: Body,
    form: map<string, FormFile>)

  datatype Response = Response(status: int, body: string)

  /** Go's `url.Values.Get`: the parameter's value, or "" when it is absent. */
  function QueryGet(query: map<string, string>, key: string): string {
    if key in query then query[key] else ""
  }

  /** Go's `http.Error`: the status code and the message followed by a newline. */
  function Error(message: string, code: int): Response {
    Response(code, message + "\n")
  }

  /** What a handler that writes nothing answers: status 200 and an empty body. */
  const Ok := Response(200, "")
}
