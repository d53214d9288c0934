/**
 * The client's `ApiError`: an `Error` that also carries the HTTP status and the
 * response body.
 */
module ApiErrors {
  import opened Wrappers
  import opened Text
  import opened JsValues

  /** The fields of an `ApiError` instance. */
  datatype ApiError = ApiError(name: string, message: string, status: int, data: JsValue)

  /** The parts of a `fetch` response the client reads. */
  datatype HttpResponse = HttpResponse(status: int, statusText: string, ok: bool, contentType: Option<string>)

  /** `new ApiError(message, status, data)`: `Error` turns the message into a string,
      an `undefined` message leaving the empty one. */
  function NewApiError(message: JsValue, status: int, data: JsValue): (r: ApiError)
    ensures r.name == "ApiError" && r.status == status && r.data == data
    ensures message.Str? ==> r.message == message.s
    ensures message.Undefined? ==> r.message == ""
  {
    ApiError("ApiError", if message.Undefined? then "" else ToJsString(message), status, data)
  }

  /** The message `fromResponse` chooses before it is turned into a string. */
  function ResponseMessage(response: HttpResponse, data: JsValue): JsValue
  {
    Or(OptionalProp(data, "message"),
       Or(OptionalProp(data, "error"), Str(StatusLine(response))))
  }

  /** `ApiError.fromResponse(response, data)`. */
  function FromResponse(response: HttpResponse, data: JsValue): (r: ApiError)
    ensures r.name == "ApiError" && r.status == response.status && r.data == data
  {
    NewApiError(ResponseMessage(response, data), response.status, data)
  }

  /** The status line used when the body names no message. */
  function StatusLine(response: HttpResponse): string
  {
    IntToString(response.status) + " - " + response.statusText
  }

  /** The order of choice: a truthy `data.message`, else a truthy `data.error`, else
      "<status> - <statusText>". */
  lemma FromResponseMessage(response: HttpResponse, data: JsValue)
    ensures var m := OptionalProp(data, "message");
      var e := OptionalProp(data, "error");
      FromResponse(response, data).message ==
        (if Truthy(m) then ToJsString(m) else if Truthy(e) then ToJsString(e) else StatusLine(response))
  {
    ToJsStringShape(Str(StatusLine(response)));
  }

  /** A body that is not an object (`null`, `undefined`, or a text body) always
      gives the status line. */
  lemma NonObjectBodyGivesStatusLine(response: HttpResponse, data: JsValue)
    requires !data.Obj?
    ensures FromResponse(response, data).message == StatusLine(response)
  {
    FromResponseMessage(response, data);
  }

  /** A string message in the body is used as it is. */
  lemma StringMessageKept(response: HttpResponse, props: seq<(string, JsValue)>, message: string)
    requires message != ""
    ensures var data := Obj(props + [("message", Str(message))]);
      FromResponse(response, data).message == message
  {
    var data := Obj(props + [("message", Str(message))]);
    assert OptionalProp(data, "message") == Str(message);
    FromResponseMessage(response, data);
  }
}
