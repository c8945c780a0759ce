/** The outward results of the handlers: HTTP responses reduced to status, decoded body and
    the headers that carry meaning, plus the error that escapes a handler uncaught. */
module Http {
  import opened Json

  /** A response body, already decoded. */
  datatype Body =
    | NoBody                          // OPTIONS preflight
    | RecordList(records: seq<Record>) // the collection as a JSON array
    | OneRecord(record: Record)       // one record as a JSON object
    | Succeeded                       // `{ success: true }`
    | ErrorMessage(message: string)   // `{ error: <message> }` with a fixed message
    | BackendError                    // `{ error: error.message }` of a caught exception
    | UploadedUrl(url: string)        // `{ url: <url> }`
    | ImageBytes(data: seq<bv8>)      // raw image bytes

  datatype Response = Response(status: nat, body: Body, headers: map<string, string>)

  /** What a request produces: a response, or an exception that escapes the handler. */
  datatype Outcome = Reply(response: Response) | Uncaught(message: string)

  /** A failure of the blob backend: its reads throw, or its writes throw. */
  datatype Fault = NoFault | ReadFails | WriteFails

  const ContentTypeHeader: string := "Content-Type"
  const JsonContentType: string := "application/json"

  function JsonReply(status: nat, body: Body): Response {
    Response(status, body, map[ContentTypeHeader := JsonContentType])
  }

  /** 204 with no body, the answer to an OPTIONS preflight. */
  const NoContent: Response := Response(204, NoBody, map[])

  /** 500 with the caught exception's message. */
  const ServerError: Response := JsonReply(500, BackendError)

  const Unauthorized: Response := JsonReply(401, ErrorMessage("Unauthorized"))

  const MethodNotAllowed: Response := JsonReply(405, ErrorMessage("Method not allowed"))
}
