/** What a view answers: a status code and a body. */
module Responses {
  import opened Json
  import opened Fields

  datatype Body =
    | ErrorBody(error: string)            // {"error": ...}
    | DetailBody(detail: string)          // {"detail": ...}
    | ObjectBody(fields: map<Key, Json>)  // a serialized row
    | ErrorsBody(errors: Errors)          // field name -> messages
    | ServerError                         // an unhandled database error

  datatype Response = Response(status: int, body: Body)

  /** The answer of both `create` views to a request without a usable header. */
  const HeaderRequired := "X-Telegram-ID header is required"
}
