/** `HttpExceptionFilter.catch`: the body sent to the client for an HTTP
    exception.  The clock reading and the request URL are parameters. */
module HttpExceptionFilter {
  import opened Exceptions

  const FallbackMessage: string := "An unexpected error occurred"

  /** A `message` property value: a string, or the array of strings that
      NestJS puts there for validation failures. */
  datatype Message = Text(text: string) | TextList(items: seq<string>)

  /** `exception.getResponse()`: either a bare string or an object that may
      have a `message` property besides other properties.  `otherFields`
      holds the properties other than `message`, so it has no "message" key
      in a faithful encoding. */
  datatype ExceptionResponse =
    | PlainResponse(text: string)
    | ObjectResponse(message: Option<Message>, otherFields: map<string, string>)

  /** An HTTP exception as the filter sees it; `getStatus` is `None` when the
      object has no such method. */
  datatype HttpException = HttpException(getStatus: Option<int>, response: ExceptionResponse)

  datatype ErrorBody = ErrorBody(statusCode: int, timestamp: string, path: string, message: Message)

  /** What `response.status(status).json(body)` sends. */
  datatype Reply = Reply(status: int, body: ErrorBody)

  /** JavaScript truthiness of a `message` value: the empty string is falsy,
      every array is truthy. */
  predicate Truthy(m: Message)
  {
    m.TextList? || m.text != ""
  }

  /** `exceptionResponse['message']`; indexing a string by 'message' yields
      `undefined`. */
  function MessageProperty(r: ExceptionResponse): Option<Message>
  {
    match r
    case PlainResponse(_) => None
    case ObjectResponse(m, _) => m
  }

  /** The reply for `exception` on a request to `url` handled at `timestamp`. */
  function Catch(exception: HttpException, timestamp: string, url: string): (reply: Reply)
    ensures reply.status == (if exception.getStatus.Some? then exception.getStatus.value else 500)
    ensures reply.body.statusCode == reply.status
    ensures reply.body.path == url && reply.body.timestamp == timestamp
    ensures exception.response.ObjectResponse? && exception.response.message.Some? && Truthy(exception.response.message.value)
            ==> reply.body.message == exception.response.message.value
    ensures !(MessageProperty(exception.response).Some? && Truthy(MessageProperty(exception.response).value))
            ==> reply.body.message == Text(FallbackMessage)
    ensures Truthy(reply.body.message)
  {
    var status := if exception.getStatus.Some? then exception.getStatus.value else 500;
    var property := MessageProperty(exception.response);
    var message := if property.Some? && Truthy(property.value) then property.value else Text(FallbackMessage);
    Reply(status, ErrorBody(status, timestamp, url, message))
  }

  /** The English reason phrase NestJS uses as the `error` field and as the
      message of an exception built with an empty one. */
  function ReasonPhrase(k: HttpKind): string
  {
    match k
    case Unauthorized => "Unauthorized"
    case NotFound => "Not Found"
    case Conflict => "Conflict"
    case InternalServerError => "Internal Server Error"
  }

  /** `new XxxException(message)` for one of the core's exception kinds:
      the response object `{statusCode, message, error}`; an empty message is
      replaced by the reason phrase. */
  function ToHttpException(kind: HttpKind, message: string): HttpException
  {
    var shown := if message == "" then ReasonPhrase(kind) else message;
    HttpException(Some(StatusOf(kind)),
                  ObjectResponse(Some(Text(shown)), map["error" := ReasonPhrase(kind)]))
  }

  /** Response properties other than `message` never reach the body. */
  lemma OtherFieldsDropped(status: Option<int>, m: Option<Message>, f1: map<string, string>, f2: map<string, string>,
                           timestamp: string, url: string)
    requires "message" !in f1 && "message" !in f2
    ensures Catch(HttpException(status, ObjectResponse(m, f1)), timestamp, url)
         == Catch(HttpException(status, ObjectResponse(m, f2)), timestamp, url)
  {
  }

  /** A missing or empty message, and a bare-string response, all show the
      fallback text. */
  lemma FallbackWhenFalsy(status: Option<int>, r: ExceptionResponse, timestamp: string, url: string)
    requires r.PlainResponse? || r.message.None? || r.message == Some(Text(""))
    ensures Catch(HttpException(status, r), timestamp, url).body.message == Text(FallbackMessage)
  {
  }

  /** An exception the core throws reaches the client with its own status and
      its own (non-empty) message. */
  lemma ThrownExceptionReply(kind: HttpKind, message: string, timestamp: string, url: string)
    requires message != ""
    ensures Catch(ToHttpException(kind, message), timestamp, url)
         == Reply(StatusOf(kind), ErrorBody(StatusOf(kind), timestamp, url, Text(message)))
  {
  }
}
