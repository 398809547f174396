/**
 * ActionRouter.processAction: the request_id check, then the first
 * controller (LoginController, UserController, AdminController) whose
 * `action` knows the requested action; that controller's `auth` runs, and
 * only when it has no objection does the action's `exec` run.
 */
module ActionRouters {
  import opened Wrappers
  import opened Json
  import opened Platform
  import opened DBModels
  import opened Queries
  import opened DBCollections
  import opened ChatApp
  import opened Users
  import opened WebSocketControllers
  import opened AdminResults
  import opened AdminListQueries
  import opened AdminValidation
  import LoginControllers
  import UserControllers
  import AdminControllers

  // ----------------------------------------------------- request_id check

  /**
   * The request_id check of processAction as written: INTERNAL_ERROR when
   * request_id is absent or its text is NOT empty, so only a request whose
   * request_id is the empty text gets through.
   */
  function RequestIdPassesAsWritten(request: Obj): (pass: bool)
    ensures pass ==> "request_id" in request && Text(request["request_id"]) == ""
    ensures "request_id" in request && Text(request["request_id"]) == "" ==> pass
  {
    !(!("request_id" in request) || !(Text(request["request_id"]) == ""))
  }

  /** The check as evidently intended: request_id must be given and its text must not be empty. */
  function RequestIdPasses(request: Obj): (pass: bool)
    ensures pass ==> "request_id" in request
  {
    "request_id" in request && Text(request["request_id"]) != ""
  }

  /**
   * Whenever the request carries a request_id, the check as written
   * decides the opposite of the intended check: the request_id "12345"
   * is refused and the empty request_id is let through.
   */
  lemma RequestIdCheckInverted(request: Obj)
    requires "request_id" in request
    ensures RequestIdPassesAsWritten(request) <==> !RequestIdPasses(request)
    ensures !RequestIdPassesAsWritten(map["request_id" := VStr("12345")]) && RequestIdPasses(map["request_id" := VStr("12345")])
    ensures RequestIdPassesAsWritten(map["request_id" := VStr("")]) && !RequestIdPasses(map["request_id" := VStr("")])
  {
  }

  // --------------------------------------------------------------- routing

  /** The controller and action processAction picks for an action name. */
  datatype Route =
    | ToLogin(login: LoginControllers.LoginAction)
    | ToUser(user: UserControllers.UserAction)
    | ToAdmin(admin: AdminControllers.AdminAction)
    | Unrouted

  /** The first controller whose `action` recognises the name, in the order Login, User, Admin. */
  function RouteOf(action: string): (r: Route)
    ensures r.ToLogin? <==> LoginControllers.Action(action).Some?
    ensures r.ToUser? <==> UserControllers.Action(action).Some?
    ensures r.ToAdmin? <==> AdminControllers.Action(action).Some?
    ensures r.ToLogin? ==> LoginControllers.ActionName(r.login) == action
    ensures r.ToAdmin? ==> AdminControllers.ActionName(r.admin) == action
  {
    match LoginControllers.Action(action)
    case Some(a) => ToLogin(a)
    case None =>
      match UserControllers.Action(action)
      case Some(a) => ToUser(a)
      case None =>
        match AdminControllers.Action(action)
        case Some(a) => ToAdmin(a)
        case None => Unrouted
  }

  /** No action name is known to two controllers, so the order in which they are tried does not matter. */
  lemma ActionNamesDisjoint(action: string)
    ensures !(LoginControllers.Action(action).Some? && UserControllers.Action(action).Some?)
    ensures !(LoginControllers.Action(action).Some? && AdminControllers.Action(action).Some?)
    ensures !(UserControllers.Action(action).Some? && AdminControllers.Action(action).Some?)
  {
  }

  // ------------------------------------------------ what an action does

  /**
   * What a LoginController action answers and does to the application,
   * from the state `s` before to the state `s'` after: register_user
   * touches only the users, login_user only the sessions and the rooms
   * cursor, logout_user only the sessions.
   */
  ghost predicate LoginRouteDone(a: LoginControllers.LoginAction, env: Env, request: Obj, freshId: string, emailSent: bool,
                                 s: AppState, s': AppState, response: Result<Obj>)
  {
    match a
    case register_user =>
      s' == s.(users := s'.users, userStore := s'.userStore) &&
      response == Ok(LoginControllers.RegisterReply(LoginControllers.RegisterOutcome(s.userStore, request, emailSent))) &&
      RegisterState(env, request, freshId, emailSent, s.users, s.userStore, s'.users, s'.userStore)
    case login_user =>
      s' == s.(sessions := s'.sessions, sessionStore := s'.sessionStore, roomCursor := s'.roomCursor) &&
      (LoginControllers.LoginGuard(request).Some? ==>
        s' == s && response == Ok(LoginControllers.LoginReply(s.rooms, [], s.sessions, LoginControllers.LoginGuard(request).value, None))) &&
      (LoginControllers.LoginGuard(request).None? ==>
        var login, password := Text(request["login"]), Text(request["password"]);
        var out := LoginOutcome(s.users, s.sessions, env, login, password);
        response.Err? == out.Err? &&
        (out.Ok? ==> response == Ok(LoginControllers.LoginReply(s.rooms, LoginControllers.Listed(s.rooms, s.roomCursor),
                                                                s'.sessions, out.value.0, out.value.1))) &&
        LoginState(s.users, s.rooms, env, login, password, freshId, s.sessions, s.sessionStore, s'.sessions, s'.sessionStore) &&
        s'.roomCursor == if out.Ok? && out.value.0 == LoginOk then 0 else s.roomCursor)
    case logout_user =>
      var id := Text(Get(request, "session_id"));
      s' == s.(sessions := s'.sessions, sessionStore := s'.sessionStore) &&
      response == Ok(map["status" := VStr("ok"), "status_code" := VStr("RESULT_OK")]) &&
      s'.sessions == LoginControllers.Without(s.sessions, id) &&
      s'.sessionStore == match IndexById(s.sessions, id)
        case Some(i) => StoreRemove(s.sessionStore, s.sessions[i])
        case None => s.sessionStore
  }

  /**
   * What update_user answers and does once UserController.auth admits
   * the request: the users become UpdateState of the old ones, and
   * file_requests gains the pending upload exactly when the answer is
   * RESULT_OK_PENDING_IMAGE_UPLOAD; nothing else changes.
   */
  ghost predicate UserRouteDone(env: Env, request: Obj, client: Value, s: AppState, s': AppState, response: Result<Obj>)
  {
    var result := UpdateResult(s.users, s.rooms, env, request);
    var reply := UserControllers.UpdateReply(result.0, result.1, request);
    s' == s.(users := s'.users, userStore := s'.userStore, fileRequests := s'.fileRequests) &&
    response == Ok(UserControllers.ReplyObject(reply)) &&
    UpdateState(s.rooms, env, request, s.users, s.userStore, s'.users, s'.userStore) &&
    s'.fileRequests == if reply.code == UpdateOkPendingImage && result.0 == UpdateOk
      then s.fileRequests[reply.checksum := UserControllers.PendingUpload(env, request, client)]
      else s.fileRequests
  }

  /** The answer of a list action: a query error as it is, otherwise the listing of one of the request's sort entries. */
  ghost predicate ListAnswered(schema: Schema, models: seq<Doc>, env: Env, request: Obj, present: (Item, string) -> string,
                               order: (Item, Item, (string, string)) -> Option<int>, response: Result<Obj>)
  {
    (ListQueryError(env, request).Some? ==> response == Ok(ListQueryError(env, request).value)) &&
    (ListQueryError(env, request).None? ==> exists sort :: (AdminControllers.SortChosen(env, request, sort) &&
      ReadParams(Prepared(env, request, sort)) == Ok(AcceptedParams(env, request, sort)) &&
      AdminControllers.Listed(schema, models, Prepared(env, request, sort), present, order, response)))
  }

  /**
   * What an AdminController action answers and does once the admin `auth`
   * admits the request: the list, get and activation-email actions change
   * nothing; add and update change only the users; remove changes the
   * users and the sessions.
   */
  ghost predicate AdminRouteDone(a: AdminControllers.AdminAction, env: Env, request: Obj, freshId: string, emailSent: bool,
                                 s: AppState, s': AppState, response: Result<Obj>)
  {
    match a
    case admin_get_users_list => s' == s && UsersListed(env, request, s, response)
    case admin_get_rooms_list =>
      s' == s && ListAnswered(RoomSchema, s.rooms, env, request, FieldPresentation, BaseOrder(RoomSchema), response)
    case admin_get_user =>
      s' == s && response == Ok(AdminControllers.GetUser(env, s.users, request))
    case admin_send_activation_email =>
      s' == s && response == Ok(AdminControllers.SendActivationEmail(s.users, request, emailSent))
    case admin_add_user => AddUserDone(env, request, freshId, s, s', response)
    case admin_update_user => UpdateUserDone(env, request, s, s', response)
    case admin_remove_users => RemoveUsersDone(env, request, s, s', response)
  }

  /** admin_get_users_list: the users listed with their presentations and order, no row holding a password. */
  ghost predicate UsersListed(env: Env, request: Obj, s: AppState, response: Result<Obj>)
  {
    ListAnswered(UserSchema, s.users, env, request, Presenter(s.rooms, env), UserOrder(s.rooms, env), response) &&
    (response.Ok? && Get(response.value, "status") == VStr("ok") ==>
      Get(response.value, "list").VArr? && NoPasswords(response.value["list"].items))
  }

  /**
   * admin_add_user: a refusal is answered and changes nothing; an accepted
   * user is appended and saved under the fresh ObjectId and shown without
   * its password.
   */
  ghost predicate AddUserDone(env: Env, request: Obj, freshId: string, s: AppState, s': AppState, response: Result<Obj>)
  {
    AllWellTyped(s.users) &&
    var out := AdminControllers.AddOutcome(env, s.users, s.rooms, request);
    s' == s.(users := s'.users, userStore := s'.userStore) &&
    (out.Answer? ==> response == Ok(out.response) && s' == s) &&
    (out.Store? ==> var d := out.doc[ID := VStr(freshId)];
      s'.users == s.users + [d] && s'.userStore == StoreSave(s.userStore, d, freshId) &&
      response == Ok(AdminControllers.UserAnswer(env, d)))
  }

  /**
   * admin_update_user: unparsable fields, a missing id and a refusal are
   * answered and change nothing; an accepted user replaces the loaded one
   * of that id in place and is saved under it.
   */
  ghost predicate UpdateUserDone(env: Env, request: Obj, s: AppState, s': AppState, response: Result<Obj>)
  {
    s' == s.(users := s'.users, userStore := s'.userStore) &&
    (AdminControllers.Submitted(env, request).None? ==>
      response == Ok(ParseJSONArrayFromRequest(env.parse, request, "fields")) && s' == s) &&
    (AdminControllers.Submitted(env, request).Some? && Get(request, "id") == VNull ==>
      response == Ok(AdminError(FieldEmpty, "id")) && s' == s) &&
    (AdminControllers.Submitted(env, request).Some? && Get(request, "id") != VNull ==>
      var id := Text(request["id"]);
      var v := ValidationOf(env, s.users, s.rooms, AdminControllers.Submitted(env, request).value, Some(id));
      v.Ok? &&
      (v.value.Refused? ==> response == Ok(v.value.error) && s' == s) &&
      (v.value.Accepted? ==> var d := v.value.doc;
        IndexById(s.users, id).Some? &&
        s'.users == s.users[IndexById(s.users, id).value := d] &&
        s'.userStore == StoreSave(s.userStore, d, id) &&
        response == Ok(AdminControllers.UserAnswer(env, d))))
  }

  /**
   * admin_remove_users: a missing, unparsable or (without the requester)
   * empty list is answered and changes nothing; otherwise the listed
   * loaded users other than the requester leave list and store with all
   * their sessions, and the answer counts them.
   */
  ghost predicate RemoveUsersDone(env: Env, request: Obj, s: AppState, s': AppState, response: Result<Obj>)
  {
    var requester := Text(Get(request, "user_id"));
    var listing := AdminControllers.Listing(env, request);
    s' == s.(users := s'.users, userStore := s'.userStore, sessions := s'.sessions, sessionStore := s'.sessionStore) &&
    (Get(request, "list") == VNull ==> response == Ok(AdminError(FieldEmpty, "list"))) &&
    (Get(request, "list") != VNull && listing.None? ==>
      response == Ok(ParseJSONArrayFromRequest(env.parse, request, "list"))) &&
    (Get(request, "list") != VNull && listing.Some? && AdminControllers.Kept(listing.value, requester) == [] ==>
      response == Ok(AdminError(FieldEmpty, "list"))) &&
    (Get(request, "list") == VNull || listing.None? || AdminControllers.Kept(listing.value, requester) == [] ==> s' == s) &&
    (Get(request, "list") != VNull && listing.Some? && AdminControllers.Kept(listing.value, requester) != [] ==>
      var ids := AdminControllers.Kept(listing.value, requester);
      var gone := Removable(s.users, ids);
      response == Ok(AdminDone()["count" := VInt(|gone|)]) && requester !in gone &&
      s'.users == Filter(s.users, Unnamed(ids)) && s'.userStore == s.userStore - gone &&
      s'.sessions == Filter(s.sessions, NotOwnedBy(gone)) &&
      s'.sessionStore == s.sessionStore - OwnedKeys(s.sessions, gone))
  }

  /**
   * What processAction does once the request_id check passes, by route:
   * an unknown action and a refusal by `auth` are answered and change
   * nothing; otherwise the action's exec answers and changes the state as
   * its route states.
   */
  ghost predicate Routed(route: Route, env: Env, request: Obj, freshId: string, emailSent: bool, client: Value,
                         s: AppState, s': AppState, response: Result<Obj>)
  {
    match route
    case Unrouted => s' == s && response == Ok(CodeError(env, INTERNAL_ERROR))
    case ToLogin(a) => LoginRouteDone(a, env, request, freshId, emailSent, s, s', response)
    case ToUser(_) => UserRouted(env, request, client, s, s', response)
    case ToAdmin(a) => AdminRouted(a, env, request, freshId, emailSent, s, s', response)
  }

  /** A refusal of UserController's `auth` changes nothing; otherwise update_user runs. */
  ghost predicate UserRouted(env: Env, request: Obj, client: Value, s: AppState, s': AppState, response: Result<Obj>)
  {
    var refusal := UserControllers.Auth(env, s.users, s.sessions, request);
    (refusal.Some? ==> s' == s && response == Ok(CodeError(env, AUTHENTICATION_ERROR))) &&
    (refusal.None? ==> UserRouteDone(env, request, client, s, s', response))
  }

  /** A refusal of AdminController's `auth` changes nothing; otherwise the admin action runs. */
  ghost predicate AdminRouted(a: AdminControllers.AdminAction, env: Env, request: Obj, freshId: string, emailSent: bool,
                              s: AppState, s': AppState, response: Result<Obj>)
  {
    var refusal := AdminControllers.Auth(env, s.users, s.sessions, request);
    (refusal.Some? ==> s' == s && response == Ok(CodeError(env, AUTHENTICATION_ERROR))) &&
    (refusal.None? ==> AdminRouteDone(a, env, request, freshId, emailSent, s, s', response))
  }

  // --------------------------------------------------------- processAction

  /**
   * processAction with the request_id check as intended. A refused
   * request_id and an action no controller knows are the INTERNAL_ERROR
   * response; a refusal by the controller's `auth` is answered as it is;
   * in all three cases nothing changes. Otherwise the action's exec runs
   * and the answer and the new state are those its route states. Err is
   * an exception an action raises. `freshId` is the ObjectId a new user
   * or session would get, `emailSent` whether an activation e-mail goes
   * out, `client` the WebSocket session of the request.
   */
  method ProcessAction(app: App, env: Env, request: Obj, freshId: string, emailSent: bool, client: Value)
    returns (response: Result<Obj>)
    requires app.Valid()
    requires freshId !in app.users.stored
    requires forall i :: 0 <= i < |app.users.models| ==> IdText(app.users.models[i]) != freshId
    requires forall i :: 0 <= i < |app.sessions.models| ==> IdText(app.sessions.models[i]) != freshId
    modifies app, app.users, app.sessions, app.rooms
    ensures app.Valid()
    ensures !RequestIdPasses(request) ==>
      response == Ok(CodeError(env, INTERNAL_ERROR)) && unchanged(app, app.users, app.sessions, app.rooms)
    ensures RequestIdPasses(request) ==>
      Routed(RouteOf(Text(Get(request, "action"))), env, request, freshId, emailSent, client, old(app.Snapshot()), app.Snapshot(), response)
  {
    hide LoginRouteDone, UserRouted, AdminRouted, CodeError;
    if !("request_id" in request) || Text(request["request_id"]) == "" {
      return Ok(CodeError(env, INTERNAL_ERROR));
    }
    var route := RouteOf(Text(Get(request, "action")));
    match route
    case Unrouted =>
      response := Ok(CodeError(env, INTERNAL_ERROR));
    case ToLogin(a) =>
      response := RunLogin(app, env, request, a, freshId, emailSent);
    case ToUser(a) =>
      response := RouteUser(app, env, request, a, client);
    case ToAdmin(a) =>
      response := RouteAdmin(app, env, request, a, freshId, emailSent);
  }

  /** UserController's `auth`, then, when it does not object, the action's exec. */
  method RouteUser(app: App, env: Env, request: Obj, a: UserControllers.UserAction, client: Value) returns (response: Result<Obj>)
    requires app.Valid()
    modifies app.users`models, app.users`stored, app`fileRequests
    ensures app.Valid()
    ensures UserRouted(env, request, client, old(app.Snapshot()), app.Snapshot(), response)
  {
    hide UserRouteDone;
    var refusal := UserControllers.Auth(env, app.users.models, app.sessions.models, request);
    if refusal.Some? {
      return Ok(refusal.value);
    }
    response := RunUser(app, env, request, client);
  }

  /** AdminController's `auth`, then, when it does not object, the action's exec. */
  method RouteAdmin(app: App, env: Env, request: Obj, a: AdminControllers.AdminAction, freshId: string, emailSent: bool)
    returns (response: Result<Obj>)
    requires app.Valid()
    requires forall i :: 0 <= i < |app.users.models| ==> IdText(app.users.models[i]) != freshId
    modifies app.users`models, app.users`stored, app.sessions`models, app.sessions`stored
    ensures app.Valid()
    ensures AdminRouted(a, env, request, freshId, emailSent, old(app.Snapshot()), app.Snapshot(), response)
  {
    hide AdminRouteDone;
    var refusal := AdminControllers.Auth(env, app.users.models, app.sessions.models, request);
    if refusal.Some? {
      return Ok(refusal.value);
    }
    response := RunAdmin(app, env, request, a, freshId, emailSent);
  }

  /** The exec of a LoginController action; the controller's `auth` never objects. */
  method RunLogin(app: App, env: Env, request: Obj, a: LoginControllers.LoginAction, freshId: string, emailSent: bool)
    returns (response: Result<Obj>)
    requires app.Valid()
    requires freshId !in app.users.stored
    requires forall i :: 0 <= i < |app.users.models| ==> IdText(app.users.models[i]) != freshId
    requires forall i :: 0 <= i < |app.sessions.models| ==> IdText(app.sessions.models[i]) != freshId
    modifies app.users`models, app.users`stored, app.sessions`models, app.sessions`stored, app.rooms`currentItem
    ensures app.Valid()
    ensures LoginRouteDone(a, env, request, freshId, emailSent, old(app.Snapshot()), app.Snapshot(), response)
  {
    hide LoginControllers.RegisterReply, LoginControllers.RegisterOutcome, RegisterState, LoginControllers.LoginReply,
      LoginOutcome, LoginState, LoginControllers.Listed, LoginControllers.Without, StoreRemove, LoginControllers.LoginGuard;
    match a
    case register_user =>
      var answer := LoginControllers.RegisterUserExec(app, env, request, freshId, emailSent);
      response := Ok(answer);
    case login_user =>
      response := LoginControllers.LoginUserExec(app, env, request, freshId);
    case logout_user =>
      var answer := LoginControllers.LogoutUserExec(app, request);
      response := Ok(answer);
  }

  /** The exec of update_user, the one UserController action. */
  method RunUser(app: App, env: Env, request: Obj, client: Value) returns (response: Result<Obj>)
    requires app.Valid()
    modifies app.users`models, app.users`stored, app`fileRequests
    ensures app.Valid()
    ensures UserRouteDone(env, request, client, old(app.Snapshot()), app.Snapshot(), response)
  {
    hide UpdateResult, UserControllers.UpdateReply, UserControllers.ReplyObject, UpdateState, UserControllers.PendingUpload;
    var answer := UserControllers.UpdateUserExec(app, env, request, client);
    response := Ok(answer);
  }

  /** The exec of an AdminController action. */
  method RunAdmin(app: App, env: Env, request: Obj, a: AdminControllers.AdminAction, freshId: string, emailSent: bool)
    returns (response: Result<Obj>)
    requires app.Valid()
    requires forall i :: 0 <= i < |app.users.models| ==> IdText(app.users.models[i]) != freshId
    modifies app.users`models, app.users`stored, app.sessions`models, app.sessions`stored
    ensures app.Valid()
    ensures AdminRouteDone(a, env, request, freshId, emailSent, old(app.Snapshot()), app.Snapshot(), response)
  {
    hide AddUserDone, UpdateUserDone, RemoveUsersDone, UsersListed, ListAnswered, AdminControllers.GetUser,
      AdminControllers.SendActivationEmail;
    match a
    case admin_get_users_list =>
      response := RunUsersList(app, env, request);
    case admin_get_user =>
      response := Ok(AdminControllers.GetUser(env, app.users.models, request));
    case admin_add_user =>
      response := RunAddUser(app, env, request, freshId);
    case admin_update_user =>
      response := RunUpdateUser(app, env, request);
    case admin_remove_users =>
      response := RunRemoveUsers(app, env, request);
    case admin_send_activation_email =>
      response := Ok(AdminControllers.SendActivationEmail(app.users.models, request, emailSent));
    case admin_get_rooms_list =>
      response := RunRoomsList(app, env, request);
  }

  /** admin_get_users_list.exec as UsersListed states it. */
  method RunUsersList(app: App, env: Env, request: Obj) returns (response: Result<Obj>)
    requires app.Valid()
    ensures UsersListed(env, request, app.Snapshot(), response)
  {
    response := AdminControllers.GetUsersList(app, env, request);
  }

  /** admin_get_rooms_list.exec as ListAnswered states it. */
  method RunRoomsList(app: App, env: Env, request: Obj) returns (response: Result<Obj>)
    requires app.Valid()
    ensures ListAnswered(RoomSchema, app.rooms.models, env, request, FieldPresentation, BaseOrder(RoomSchema), response)
  {
    response := AdminControllers.GetRoomsList(app, env, request);
  }

  /** admin_add_user.exec as AddUserDone states it. */
  method RunAddUser(app: App, env: Env, request: Obj, freshId: string) returns (response: Result<Obj>)
    requires app.Valid()
    requires forall i :: 0 <= i < |app.users.models| ==> IdText(app.users.models[i]) != freshId
    modifies app.users`models, app.users`stored
    ensures app.Valid()
    ensures AddUserDone(env, request, freshId, old(app.Snapshot()), app.Snapshot(), response)
  {
    hide AdminControllers.AddOutcome, AdminControllers.UserAnswer, StoreSave;
    AdminControllers.LoadedUsersWellTyped(app);
    var answer := AdminControllers.AddUser(app, env, request, freshId);
    response := Ok(answer);
  }

  /** admin_update_user.exec as UpdateUserDone states it. */
  method RunUpdateUser(app: App, env: Env, request: Obj) returns (response: Result<Obj>)
    requires app.Valid()
    modifies app.users`models, app.users`stored
    ensures app.Valid()
    ensures UpdateUserDone(env, request, old(app.Snapshot()), app.Snapshot(), response)
  {
    hide AdminControllers.Submitted, ParseJSONArrayFromRequest, ValidationOf, AdminError, AdminControllers.UserAnswer, StoreSave;
    var answer := AdminControllers.UpdateUser(app, env, request);
    response := Ok(answer);
  }

  /** admin_remove_users.exec as RemoveUsersDone states it. */
  method RunRemoveUsers(app: App, env: Env, request: Obj) returns (response: Result<Obj>)
    requires app.Valid()
    modifies app.users`models, app.users`stored, app.sessions`models, app.sessions`stored
    ensures app.Valid()
    ensures RemoveUsersDone(env, request, old(app.Snapshot()), app.Snapshot(), response)
  {
    hide AdminControllers.Listing, AdminControllers.Kept, Removable, Filter, OwnedKeys, AdminDone, AdminError,
      ParseJSONArrayFromRequest;
    var answer := AdminControllers.RemoveUsers(app, env, request);
    response := Ok(answer);
  }
}
