/**
 * UserController: the actions an authenticated user may run (update_user),
 * the authentication check shared with the login and admin controllers,
 * and the `before` middleware that attaches the user to the request.
 */
module UserControllers {
  import opened Wrappers
  import opened Strings
  import opened Json
  import opened Platform
  import opened DBModels
  import opened Queries
  import opened ChatApp
  import opened Users
  import opened WebSocketControllers

  /** The actions of UserController. */
  datatype UserAction = update_user

  /** UserController.action: `valueOf` of the action name, null for any other name. */
  function Action(value: string): (r: Option<UserAction>)
    ensures r.Some? <==> value == "update_user"
  {
    if value == "update_user" then Some(update_user) else None
  }

  /**
   * UserController.auth: the request passes only when its user_id names a
   * loaded user, its session_id names a loaded session, and that session
   * belongs to that user; otherwise the AUTHENTICATION_ERROR response.
   */
  function Auth(env: Env, users: seq<Doc>, sessions: seq<Doc>, request: Obj): (r: Option<Obj>)
    ensures r.Some? ==> r.value == CodeError(env, AUTHENTICATION_ERROR)
    ensures r.None? <==> (
      "user_id" in request && ById(users, Text(request["user_id"])).Some? &&
      "session_id" in request && ById(sessions, Text(request["session_id"])).Some? &&
      Get(ById(sessions, Text(request["session_id"])).value, "user_id") == VStr(Text(request["user_id"])))
  {
    if "user_id" !in request || ById(users, Text(request["user_id"])).None? then Some(CodeError(env, AUTHENTICATION_ERROR))
    else if "session_id" !in request || ById(sessions, Text(request["session_id"])).None? then
      Some(CodeError(env, AUTHENTICATION_ERROR))
    else if Get(ById(sessions, Text(request["session_id"])).value, "user_id") != VStr(Text(request["user_id"])) then
      Some(CodeError(env, AUTHENTICATION_ERROR))
    else None
  }

  /** A request that passes auth names a loaded user that owns a loaded session. */
  lemma AuthedUserOwnsSession(env: Env, users: seq<Doc>, sessions: seq<Doc>, request: Obj)
    requires Auth(env, users, sessions, request).None?
    ensures exists u, s :: (u in users && s in sessions && IdText(u) == Text(request["user_id"]) &&
      IdText(s) == Text(request["session_id"]) && Get(s, "user_id") == VStr(IdText(u)))
  {
    var u := ById(users, Text(request["user_id"])).value;
    var s := ById(sessions, Text(request["session_id"])).value;
    assert u in users && s in sessions;
  }

  /** The `user` and `username` a controller records in `before`. */
  class ControllerState {
    var user: Option<Doc>
    var username: string

    constructor ()
      ensures user.None? && username == ""
    {
      user := None;
      username := "";
    }
  }

  /**
   * UserController.before: looks up the user named by user_id and adds
   * "username" (its login) and "user" to the request, and records both on
   * the controller. A missing user_id or an unknown user is the
   * NullPointerException of `!!`.
   */
  method Before(state: ControllerState, users: seq<Doc>, request: Obj) returns (r: Result<Obj>)
    modifies state
    ensures Get(request, "user_id") == VNull || ById(users, Text(request["user_id"])).None? ==>
      r.Err? && state.user == old(state.user) && state.username == old(state.username)
    ensures Get(request, "user_id") != VNull && ById(users, Text(request["user_id"])).Some? ==>
      var u := ById(users, Text(request["user_id"])).value;
      r == Ok(request["username" := VStr(Text(Get(u, "login")))]["user" := VObj(u)]) &&
      state.user == Some(u) && state.username == Text(Get(u, "login"))
  {
    if Get(request, "user_id") == VNull {
      return Err("NullPointerException");
    }
    var found := ById(users, Text(request["user_id"]));
    if found.None? {
      return Err("NullPointerException");
    }
    var user := found.value;
    var updated := request["username" := VStr(Text(Get(user, "login")))];
    updated := updated["user" := VObj(user)];
    state.username := Text(updated["username"]);
    state.user := Some(user);
    r := Ok(updated);
  }

  // ---------------------------------------------------------- update_user

  /** What update_user.exec answers: status, code, message and field, and the image checksum it read. */
  datatype Reply = Reply(status: string, code: UpdateCode, message: string, field: string, checksum: int)

  const CHECKSUM := "profile_image_checksum"
  const IMAGE_ERROR := "Error with profile image. Please, try again"

  /**
   * How update_user.exec turns the result of Users.updateUser into its
   * answer. A field error names the field; after a successful update an
   * empty checksum is FIELD_IS_EMPTY and a checksum that is not a Long is
   * INCORRECT_FIELD_VALUE, both for "profile_image_checksum"; a positive
   * checksum makes the answer RESULT_OK_PENDING_IMAGE_UPLOAD.
   */
  function UpdateReply(code: UpdateCode, msg: string, request: Obj): (r: Reply)
    ensures code != UpdateOk ==> r.status == "error" && r.code == code && r.checksum == 0
    ensures code in {FieldIsEmpty, IncorrectFieldValue} ==> r.field == msg
    ensures code != UpdateOk && code !in {FieldIsEmpty, IncorrectFieldValue} ==> r.field == "" && r.message == UpdateMessage(code)
    ensures code == UpdateOk && CHECKSUM in request && Text(request[CHECKSUM]) == "" ==>
      r.status == "error" && r.code == FieldIsEmpty && r.field == CHECKSUM
    ensures code == UpdateOk && CHECKSUM in request && Text(request[CHECKSUM]) != "" && ParseLong(Text(request[CHECKSUM])).None? ==>
      r.status == "error" && r.code == IncorrectFieldValue && r.field == CHECKSUM
    ensures r.status == "ok" <==> code == UpdateOk && (CHECKSUM !in request || ParseLong(Text(request[CHECKSUM])).Some?)
    ensures code != UpdateOkPendingImage ==> (r.code == UpdateOkPendingImage <==>
      code == UpdateOk && CHECKSUM in request && ParseLong(Text(request[CHECKSUM])).Some? && ParseLong(Text(request[CHECKSUM])).value > 0)
    ensures r.code == UpdateOkPendingImage && code == UpdateOk ==> r.checksum == ParseLong(Text(request[CHECKSUM])).value && r.message == ""
  {
    if code != UpdateOk then
      if code == FieldIsEmpty || code == IncorrectFieldValue then Reply("error", code, UpdateMessage(code) + " " + msg, msg, 0)
      else Reply("error", code, UpdateMessage(code), "", 0)
    else if CHECKSUM in request && Text(request[CHECKSUM]) == "" then
      Reply("error", FieldIsEmpty, IMAGE_ERROR, CHECKSUM, 0)
    else if CHECKSUM !in request then Reply("ok", UpdateOk, UpdateMessage(UpdateOk), "", 0)
    else match ParseLong(Text(request[CHECKSUM]))
      case None => Reply("error", IncorrectFieldValue, UpdateMessage(IncorrectFieldValue), CHECKSUM, 0)
      case Some(n) =>
        if n > 0 then Reply("ok", UpdateOkPendingImage, "", "", n)
        else Reply("ok", UpdateOk, UpdateMessage(UpdateOk), "", n)
  }

  /** The response object: status and status_code always, message and field only when not empty. */
  function ReplyObject(r: Reply): (o: Obj)
    ensures Get(o, "status") == VStr(r.status) && Get(o, "status_code") == VCode(UpdateCodeName(r.code))
    ensures "message" in o <==> r.message != ""
    ensures "field" in o <==> r.field != ""
    ensures "message" in o ==> o["message"] == VStr(r.message)
    ensures "field" in o ==> o["field"] == VStr(r.field)
  {
    var base := map["status" := VStr(r.status), "status_code" := VCode(UpdateCodeName(r.code))];
    var withMessage := if r.message != "" then base["message" := VStr(r.message)] else base;
    if r.field != "" then withMessage["field" := VStr(r.field)] else withMessage
  }

  /**
   * The entry queued in the message center's file_requests: the client's
   * WebSocket session ("" without a remote end) and the request, stamped
   * with the time in seconds.
   */
  function PendingUpload(env: Env, request: Obj, client: Value): (p: Obj)
    ensures Get(p, "session") == (if client == VNull then VStr("") else client)
    ensures Get(p, "request") == VObj(request["request_timestamp" := VInt(env.nowMillis / 1000)])
  {
    map["session" := (if client == VNull then VStr("") else client),
        "request" := VObj(request["request_timestamp" := VInt(env.nowMillis / 1000)])]
  }

  /**
   * update_user.exec: runs Users.updateUser on the request, then maps its
   * result to the answer; a positive image checksum queues the request in
   * file_requests under that checksum. `client` is the WebSocket session
   * (VNull when it has no remote end).
   */
  method UpdateUserExec(app: App, env: Env, request: Obj, client: Value) returns (response: Obj)
    requires app.Valid()
    modifies app.users`models, app.users`stored, app`fileRequests
    ensures app.Valid()
    ensures var result := UpdateResult(old(app.users.models), app.rooms.models, env, request);
      var reply := UpdateReply(result.0, result.1, request);
      response == ReplyObject(reply) &&
      app.fileRequests == if reply.code == UpdateOkPendingImage && result.0 == UpdateOk
        then old(app.fileRequests)[reply.checksum := PendingUpload(env, request, client)]
        else old(app.fileRequests)
    ensures UpdateState(app.rooms.models, env, request, old(app.users.models), old(app.users.stored), app.users.models, app.users.stored)
  {
    hide Users.UpdateResult, UpdateReply, ReplyObject, UpdateState;
    var code, msg := Users.UpdateUser(app, env, request);
    response := Answer(app, env, request, client, code, msg);
  }

  /** The second half of update_user.exec: the answer to the result of Users.updateUser. */
  method Answer(app: App, env: Env, request: Obj, client: Value, code: UpdateCode, msg: string) returns (response: Obj)
    requires app.Valid()
    modifies app`fileRequests
    ensures app.Valid()
    ensures var reply := UpdateReply(code, msg, request);
      response == ReplyObject(reply) &&
      app.fileRequests == if reply.code == UpdateOkPendingImage && code == UpdateOk
        then old(app.fileRequests)[reply.checksum := PendingUpload(env, request, client)]
        else old(app.fileRequests)
  {
    var reply := Decide(code, msg, request);
    if reply.code == UpdateOkPendingImage && code == UpdateOk {
      app.fileRequests := app.fileRequests[reply.checksum := PendingUpload(env, request, client)];
    }
    response := ReplyObject(reply);
  }

  /** The status, code, message and field update_user.exec accumulates. */
  method Decide(code: UpdateCode, msg: string, request: Obj) returns (reply: Reply)
    ensures reply == UpdateReply(code, msg, request)
  {
    var status := "error";
    var statusCode := code;
    var message := "";
    var field := "";
    var checksum := 0;
    if statusCode != UpdateOk {
      if statusCode == FieldIsEmpty || statusCode == IncorrectFieldValue {
        field := msg;
        message := UpdateMessage(statusCode) + " " + field;
      } else {
        message := UpdateMessage(statusCode);
      }
    } else if CHECKSUM in request && Text(request[CHECKSUM]) == "" {
      statusCode := FieldIsEmpty;
      field := CHECKSUM;
      message := IMAGE_ERROR;
    } else {
      status := "ok";
      if CHECKSUM in request {
        var parsed := ParseLong(Text(request[CHECKSUM]));
        if parsed.None? {
          status := "error";
          field := CHECKSUM;
          statusCode := IncorrectFieldValue;
          message := IMAGE_ERROR;
        } else {
          checksum := parsed.value;
        }
      }
      if checksum > 0 {
        statusCode := UpdateOkPendingImage;
      } else {
        message := UpdateMessage(statusCode);
      }
    }
    reply := Reply(status, statusCode, message, field, checksum);
  }
}
