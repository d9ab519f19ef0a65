/**
 * The error envelope, src/common/filters/http-exception.filter.ts: the body
 * the filters write for an HttpException, `{ success: false, statusCode,
 * message, data }`, and the catch-all for anything else. The application
 * module installs neither filter, so this is what they build wherever they
 * are used. Writing the envelope to the socket and logging are left to the
 * caller.
 */
module ErrorEnvelope {
  import opened Strings
  import opened Json
  import ResponseEnvelope

  /**
   * An HttpException: its status, what `getResponse()` returns (a string or
   * an object) and its own `message`.
   */
  datatype HttpException = HttpException(status: int, response: Value, message: string)

  /** Anything that reaches the catch-all filter. */
  datatype Thrown = Http(exception: HttpException) | NotHttp

  const Unwanted: set<string> := {"message", "error", "statusCode"}

  /** `exception.message || 'An error occurred'`. */
  function FallbackMessage(e: HttpException): (m: string)
    ensures m != ""
    ensures e.message != "" ==> m == e.message
  {
    if e.message != "" then e.message else "An error occurred"
  }

  /** The `message` property of the response object, undefined when it has none. */
  function MessageOf(response: Value): Value
  {
    if response.Obj? && "message" in response.fields then response.fields["message"] else Undefined
  }

  /** `HttpExceptionFilter.catch`: the envelope it writes. */
  function HttpEnvelope(e: HttpException): (r: Value)
    requires !e.response.Null?
    ensures r.Obj? && r.fields.Keys == ResponseEnvelope.EnvelopeKeys
    ensures r == ResponseEnvelope.ApiResponse(false, e.status, r.fields["message"], r.fields["data"])
    ensures e.response.Str? ==> r.fields["message"] == e.response && r.fields["data"] == Undefined
    ensures IsObjectType(e.response) && MessageOf(e.response).Arr? ==>
      r.fields["message"] == Str(JoinValues(MessageOf(e.response).items, ", "))
      && r.fields["data"] == Obj(map["errors" := MessageOf(e.response)])
    ensures IsObjectType(e.response) && !MessageOf(e.response).Arr? && Truthy(MessageOf(e.response)) ==>
      r.fields["message"] == MessageOf(e.response)
      && r.fields["data"] == (var rest := e.response.fields - Unwanted; if |rest.Keys| > 0 then Obj(rest) else Undefined)
    ensures (!e.response.Str? && !IsObjectType(e.response))
            || (IsObjectType(e.response) && !MessageOf(e.response).Arr? && !Truthy(MessageOf(e.response))) ==>
      r.fields["message"] == Str(FallbackMessage(e)) && r.fields["data"] == Undefined
  {
    if e.response.Str? then ResponseEnvelope.ApiResponse(false, e.status, e.response, Undefined)
    else if IsObjectType(e.response) then
      var message := MessageOf(e.response);
      if message.Arr? then
        ResponseEnvelope.ApiResponse(false, e.status, Str(JoinValues(message.items, ", ")), Obj(map["errors" := message]))
      else if Truthy(message) then
        var rest := e.response.fields - Unwanted;
        ResponseEnvelope.ApiResponse(false, e.status, message, if |rest.Keys| > 0 then Obj(rest) else Undefined)
      else ResponseEnvelope.ApiResponse(false, e.status, Str(FallbackMessage(e)), Undefined)
    else ResponseEnvelope.ApiResponse(false, e.status, Str(FallbackMessage(e)), Undefined)
  }

  /** The body Nest builds for `new XException(message)`: `{ message, error, statusCode }`. */
  function StandardBody(message: string, error: string, status: int): Value
  {
    Obj(map["message" := Str(message), "error" := Str(error), "statusCode" := Num(status)])
  }

  /**
   * For an exception raised with a plain non-empty message, as the services
   * do, the filter writes exactly that message, with its status and no data.
   */
  lemma ServiceErrorEnvelope(message: string, error: string, status: int, exceptionMessage: string)
    requires message != ""
    ensures HttpEnvelope(HttpException(status, StandardBody(message, error, status), exceptionMessage))
         == ResponseEnvelope.ApiResponse(false, status, Str(message), Undefined)
  {
    var body := StandardBody(message, error, status);
    assert body.fields.Keys == Unwanted;
    assert (body.fields - Unwanted).Keys == {};
  }

  /**
   * A validation failure, whose `message` is the list of messages, is
   * reported as their ', '-joined text, with the list itself under
   * `data.errors`.
   */
  lemma ValidationErrorsEnvelope(messages: seq<string>, status: int, exceptionMessage: string)
    ensures var body := Obj(map["message" := Arr(Strs(messages)), "error" := Str("Bad Request"), "statusCode" := Num(status)]);
      HttpEnvelope(HttpException(status, body, exceptionMessage))
      == ResponseEnvelope.ApiResponse(false, status, Str(Join(messages, ", ")), Obj(map["errors" := Arr(Strs(messages))]))
  {
    var body := Obj(map["message" := Arr(Strs(messages)), "error" := Str("Bad Request"), "statusCode" := Num(status)]);
    assert MessageOf(body) == Arr(Strs(messages));
    JoinStrs(messages, ", ");
  }

  /** `AllExceptionsFilter.catch`: an HttpException keeps its status and message, anything else is a 500. */
  function CatchAll(t: Thrown): (r: Value)
    ensures t.NotHttp? ==> r == ResponseEnvelope.ApiResponse(false, 500, Str("Internal server error"), Undefined)
    ensures t.Http? ==> r == ResponseEnvelope.ApiResponse(false, t.exception.status, Str(t.exception.message), Undefined)
  {
    match t
    case Http(e) => ResponseEnvelope.ApiResponse(false, e.status, Str(e.message), Undefined)
    case NotHttp => ResponseEnvelope.ApiResponse(false, 500, Str("Internal server error"), Undefined)
  }
}
