/**
 * The WebSocketController interface every controller implements: the
 * default `auth` (no objection), the default `before` (the request as it
 * is) and the `after` middleware that tags a response with the request's
 * request_id and action. Also the message-center response codes the
 * controllers answer with.
 */
module WebSocketControllers {
  import opened Wrappers
  import opened Json
  import opened Platform

  /** The MessageCenter.MessageObjectResponseCodes the controllers use. */
  datatype ResponseCode = INTERNAL_ERROR | AUTHENTICATION_ERROR

  function ResponseCodeName(c: ResponseCode): string
  {
    match c
    case INTERNAL_ERROR => "INTERNAL_ERROR"
    case AUTHENTICATION_ERROR => "AUTHENTICATION_ERROR"
  }

  /** The error response for a message-center code: status "error", the code and its message. */
  function CodeError(env: Env, c: ResponseCode): (r: Obj)
    ensures r.Keys == {"status", "status_code", "message"}
    ensures r["status"] == VStr("error") && r["status_code"] == VCode(ResponseCodeName(c))
    ensures r["message"] == VStr(env.codeMessage(ResponseCodeName(c)))
  {
    map["status" := VStr("error"), "status_code" := VCode(ResponseCodeName(c)),
        "message" := VStr(env.codeMessage(ResponseCodeName(c)))]
  }

  /** The default `auth`: no error, so every request may go on to its action. */
  function DefaultAuth(request: Obj): (r: Option<Obj>)
    ensures r.None?
  {
    None
  }

  /** The default `before`: the request goes to the action unchanged. */
  function DefaultBefore(request: Obj): (r: Obj)
    ensures r == request
  {
    request
  }

  /**
   * The response as `after` leaves it: request_id and action are copied
   * from the request when the request has them non-null; every other key
   * keeps its value.
   */
  function Tagged(request: Obj, response: Obj): (r: Obj)
    ensures Get(request, "request_id") != VNull ==> Get(r, "request_id") == request["request_id"]
    ensures Get(request, "request_id") == VNull ==> Get(r, "request_id") == Get(response, "request_id")
    ensures Get(request, "action") != VNull ==> Get(r, "action") == request["action"]
    ensures Get(request, "action") == VNull ==> Get(r, "action") == Get(response, "action")
    ensures forall k :: k != "request_id" && k != "action" ==> Get(r, k) == Get(response, k)
    ensures r.Keys <= response.Keys + {"request_id", "action"} && response.Keys <= r.Keys
  {
    var withId := if Get(request, "request_id") != VNull then response["request_id" := request["request_id"]] else response;
    if Get(request, "action") != VNull then withId["action" := request["action"]] else withId
  }

  /** Tagging a response twice with the same request is tagging it once. */
  lemma TaggedIdempotent(request: Obj, response: Obj)
    ensures Tagged(request, Tagged(request, response)) == Tagged(request, response)
  {
  }

  /**
   * WebSocketController.after: writes request_id and action into the
   * response object in place and hands back that same object.
   */
  method After(request: Obj, response: JsonObject) returns (r: JsonObject)
    modifies response
    ensures r == response
    ensures response.fields == Tagged(request, old(response.fields))
  {
    if Get(request, "request_id") != VNull {
      response.fields := response.fields["request_id" := request["request_id"]];
    }
    if Get(request, "action") != VNull {
      response.fields := response.fields["action" := request["action"]];
    }
    return response;
  }
}
