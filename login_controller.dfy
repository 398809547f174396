/**
 * LoginController: register_user, login_user and logout_user. The
 * controller-level `auth` lets every request through, as the default
 * `auth` of WebSocketController. ActionRouter applies only this
 * controller-level `auth`, so logout_user runs unauthenticated when it
 * comes through the router; the `auth` and `before` overrides of
 * logout_user, which would delegate to UserController, are never called
 * on that path and are not modelled.
 */
module LoginControllers {
  import opened Wrappers
  import opened Strings
  import opened Json
  import opened Platform
  import opened DBModels
  import opened Queries
  import opened ChatApp
  import opened Users
  import opened UserControllers
  import opened Sessions
  import opened DBCollections

  /** The actions of LoginController. */
  datatype LoginAction = register_user | login_user | logout_user

  function ActionName(a: LoginAction): string
  {
    match a
    case register_user => "register_user"
    case login_user => "login_user"
    case logout_user => "logout_user"
  }

  /** LoginController.action: `valueOf` of the action name, null for any other name. */
  function Action(value: string): (r: Option<LoginAction>)
    ensures r.Some? <==> value == "register_user" || value == "login_user" || value == "logout_user"
    ensures r.Some? ==> ActionName(r.value) == value
  {
    if value == "register_user" then Some(register_user)
    else if value == "login_user" then Some(login_user)
    else if value == "logout_user" then Some(logout_user)
    else None
  }

  // -------------------------------------------------------- register_user

  /**
   * The code Users.register reports: its refusal, or RESULT_OK when the
   * activation e-mail went out and RESULT_ERROR_ACTIVATION_EMAIL when it
   * did not.
   */
  function RegisterOutcome(stored: map<string, Doc>, params: Obj, emailSent: bool): (r: RegisterCode)
    ensures r == RegisterOk <==> RegisterRefusal(stored, params).None? && emailSent
    ensures r == ActivationEmail <==> RegisterRefusal(stored, params).None? && !emailSent
    ensures RegisterRefusal(stored, params).Some? ==> r == RegisterRefusal(stored, params).value
  {
    match RegisterRefusal(stored, params)
    case Some(c) => c
    case None => if emailSent then RegisterOk else ActivationEmail
  }

  /** The register_user answer: the code's name, status "ok" only for RESULT_OK, and the code's message. */
  function RegisterReply(code: RegisterCode): (r: Obj)
    ensures r.Keys == {"status", "status_code", "message"}
    ensures r["status"] == VStr("ok") <==> code == RegisterOk
    ensures r["status"] == VStr("ok") || r["status"] == VStr("error")
    ensures r["status_code"] == VStr(RegisterCodeName(code)) && r["message"] == VStr(RegisterMessage(code))
  {
    map["status_code" := VStr(RegisterCodeName(code)),
        "status" := VStr(if code == RegisterOk then "ok" else "error"),
        "message" := VStr(RegisterMessage(code))]
  }

  /**
   * register_user.exec: Users.register on the request, answered with the
   * code it reports. `freshId` is the ObjectId the new user would get and
   * `emailSent` whether the activation e-mail could be sent.
   */
  method RegisterUserExec(app: App, env: Env, request: Obj, freshId: string, emailSent: bool) returns (response: Obj)
    requires app.Valid()
    requires freshId !in app.users.stored
    requires forall i :: 0 <= i < |app.users.models| ==> IdText(app.users.models[i]) != freshId
    modifies app.users`models, app.users`stored
    ensures app.Valid()
    ensures response == RegisterReply(RegisterOutcome(old(app.users.stored), request, emailSent))
    ensures RegisterState(env, request, freshId, emailSent, old(app.users.models), old(app.users.stored), app.users.models, app.users.stored)
  {
    hide NewUser, StoreSave, RegisterRefusal, RegisterReply, RegisterState;
    var code, user := Users.Register(app, env, request, freshId, emailSent);
    response := RegisterReply(code);
  }

  /** Once a registration is stored, the same request again is refused with RESULT_ERROR_LOGIN_EXISTS. */
  lemma RegisterAgainRefused(env: Env, stored: map<string, Doc>, request: Obj, freshId: string, emailSent: bool)
    requires RegisterRefusal(stored, request).None?
    ensures var stored' := StoreSave(stored, NewUser(env, request, freshId), freshId);
      RegisterReply(RegisterOutcome(stored', request, emailSent)) == RegisterReply(LoginExists)
  {
    var u := NewUser(env, request, freshId);
    var stored' := StoreSave(stored, u, freshId);
    assert "login" in u && freshId in stored';
    assert Get(stored'[freshId], "login") == VStr(Text(request["login"]));
    assert Taken(stored', "login", Text(request["login"]));
  }

  // ----------------------------------------------------------- login_user

  /** The checks login_user.exec makes itself: a missing or empty login, then a missing or empty password. */
  function LoginGuard(request: Obj): (r: Option<LoginCode>)
    ensures r.None? <==> ("login" in request && Text(request["login"]) != "" &&
      "password" in request && Text(request["password"]) != "")
    ensures r.Some? ==> r.value in {IncorrectLogin, IncorrectPassword}
    ensures r == Some(IncorrectPassword) ==> "login" in request && Text(request["login"]) != ""
  {
    if "login" !in request || Text(request["login"]) == "" then Some(IncorrectLogin)
    else if "password" !in request || Text(request["password"]) == "" then Some(IncorrectPassword)
    else None
  }

  /** The entry of a room in the "rooms" list of a login answer. */
  function RoomEntry(room: Doc): Value
  {
    VObj(map["_id" := VStr(IdText(room)), "name" := VStr(Text(Get(room, "name")))])
  }

  function RoomEntries(rooms: seq<Doc>): seq<Value>
  {
    seq(|rooms|, i requires 0 <= i < |rooms| => RoomEntry(rooms[i]))
  }

  /** The loop of login_user.exec that lists the visited rooms as {_id, name} objects, in order. */
  method RoomList(rooms: seq<Doc>) returns (list: seq<Value>)
    ensures |list| == |rooms|
    ensures forall i :: 0 <= i < |rooms| ==>
      list[i] == VObj(map["_id" := VStr(IdText(rooms[i])), "name" := VStr(Text(Get(rooms[i], "name")))])
  {
    list := [];
    for k := 0 to |rooms|
      invariant |list| == k
      invariant forall i :: 0 <= i < k ==> list[i] == RoomEntry(rooms[i])
    {
      var room := rooms[k];
      var entry := map["_id" := VStr(IdText(room))];
      entry := entry["name" := VStr(Text(Get(room, "name")))];
      list := list + [VObj(entry)];
    }
  }

  /** A user field copied as text when the user has it. */
  predicate CopiedText(r: Obj, u: Doc, f: string)
  {
    (f in r <==> Get(u, f) != VNull) && (f in r ==> r[f] == VStr(Text(u[f])))
  }

  /** A user field copied as it is when the user has it. */
  predicate Copied(r: Obj, u: Doc, f: string)
  {
    (f in r <==> Get(u, f) != VNull) && (f in r ==> r[f] == u[f])
  }

  /** The session and account part of a login answer: session_id (when the user has a loaded session), login, email, user_id. */
  function Account(sessions: seq<Doc>, u: Doc): (r: Obj)
    ensures r.Keys <= ACCOUNT_KEYS
    ensures "session_id" in r <==> By(sessions, "user_id", VStr(IdText(u))).Some?
    ensures "session_id" in r ==> r["session_id"] == Get(By(sessions, "user_id", VStr(IdText(u))).value, ID)
    ensures Get(r, "login") == Get(u, "login") && Get(r, "email") == Get(u, "email") && Get(r, "user_id") == Get(u, ID)
  {
    var withSession := match By(sessions, "user_id", VStr(IdText(u)))
      case Some(s) => map["session_id" := Get(s, ID)]
      case None => map[];
    withSession["login" := Get(u, "login")]["email" := Get(u, "email")]["user_id" := Get(u, ID)]
  }

  /** A user field the answer carries only when the user has it: as text, or as it is. */
  function Optional(u: Doc, f: string, asText: bool): (r: Obj)
    ensures r.Keys <= {f}
    ensures asText ==> CopiedText(r, u, f)
    ensures !asText ==> Copied(r, u, f)
  {
    if Get(u, f) == VNull then map[] else map[f := if asText then VStr(Text(u[f])) else u[f]]
  }

  /** The default room of a login answer: the user's, when it names a loaded room. */
  function DefaultRoom(rooms: seq<Doc>, u: Doc): (r: Obj)
    ensures r.Keys <= {"default_room"}
    ensures "default_room" in r <==> Get(u, "default_room") != VNull && ById(rooms, Text(u["default_room"])).Some?
    ensures "default_room" in r ==> r["default_room"] == u["default_room"]
  {
    if Get(u, "default_room") != VNull && ById(rooms, Text(u["default_room"])).Some? then map["default_room" := u["default_room"]]
    else map[]
  }

  const NAME_KEYS: set<string> := {"first_name", "last_name", "gender"}
  const GIVEN_KEYS: set<string> := {"birthDate", "role"}
  const ROOM_KEYS: set<string> := {"default_room", "rooms"}
  const ACCOUNT_KEYS: set<string> := {"session_id", "login", "email", "user_id"}
  const STATUS_KEYS: set<string> := {"status", "status_code", "message"}

  /** The keys of the parts of a login answer are pairwise different. */
  lemma KeysApart()
    ensures NAME_KEYS !! GIVEN_KEYS && NAME_KEYS !! ROOM_KEYS && GIVEN_KEYS !! ROOM_KEYS
    ensures ACCOUNT_KEYS !! NAME_KEYS + GIVEN_KEYS + ROOM_KEYS
    ensures STATUS_KEYS !! ACCOUNT_KEYS + NAME_KEYS + GIVEN_KEYS + ROOM_KEYS
    ensures "first_name" != "last_name" && "first_name" != "gender" && "last_name" != "gender"
    ensures "birthDate" != "role" && "default_room" != "rooms"
  {
  }

  /** The names and gender of a login answer, as text, when the user has them. */
  function Names(u: Doc): (r: Obj)
    ensures r.Keys <= NAME_KEYS
    ensures CopiedText(r, u, "first_name") && CopiedText(r, u, "last_name") && CopiedText(r, u, "gender")
  {
    KeysApart();
    Optional(u, "first_name", true) + Optional(u, "last_name", true) + Optional(u, "gender", true)
  }

  /** The birth date and role of a login answer, as they are, when the user has them. */
  function Given(u: Doc): (r: Obj)
    ensures r.Keys <= GIVEN_KEYS
    ensures Copied(r, u, "birthDate") && Copied(r, u, "role")
  {
    KeysApart();
    Optional(u, "birthDate", false) + Optional(u, "role", false)
  }

  /** The default room, when it names a loaded room, and the rooms listed. */
  function RoomPart(rooms: seq<Doc>, listed: seq<Doc>, u: Doc): (r: Obj)
    ensures r.Keys <= ROOM_KEYS
    ensures "default_room" in r <==> Get(u, "default_room") != VNull && ById(rooms, Text(u["default_room"])).Some?
    ensures "default_room" in r ==> r["default_room"] == u["default_room"]
    ensures Get(r, "rooms") == VArr(RoomEntries(listed))
  {
    KeysApart();
    DefaultRoom(rooms, u) + map["rooms" := VArr(RoomEntries(listed))]
  }

  /**
   * The profile part of a successful login answer: the names and gender as
   * text and birthDate and role as they are when the user has them, the
   * default room when it names a loaded room, and the rooms listed.
   */
  function Profile(rooms: seq<Doc>, listed: seq<Doc>, u: Doc): (r: Obj)
    ensures r.Keys <= NAME_KEYS + GIVEN_KEYS + ROOM_KEYS
    ensures CopiedText(r, u, "first_name") && CopiedText(r, u, "last_name") && CopiedText(r, u, "gender")
    ensures Copied(r, u, "birthDate") && Copied(r, u, "role")
    ensures "default_room" in r <==> Get(u, "default_room") != VNull && ById(rooms, Text(u["default_room"])).Some?
    ensures "default_room" in r ==> r["default_room"] == u["default_room"]
    ensures Get(r, "rooms") == VArr(RoomEntries(listed))
  {
    KeysApart();
    Names(u) + Given(u) + RoomPart(rooms, listed, u)
  }

  /** The user part of a successful login answer: the account part and the profile part. */
  function UserDetails(rooms: seq<Doc>, listed: seq<Doc>, sessions: seq<Doc>, u: Doc): (r: Obj)
    ensures r.Keys == Account(sessions, u).Keys + Profile(rooms, listed, u).Keys
    ensures forall k :: k in Account(sessions, u) ==> r[k] == Account(sessions, u)[k]
    ensures forall k :: k in Profile(rooms, listed, u) ==> r[k] == Profile(rooms, listed, u)[k]
    ensures r.Keys !! STATUS_KEYS
  {
    KeysApart();
    var account := Account(sessions, u);
    var profile := Profile(rooms, listed, u);
    assert account.Keys <= ACCOUNT_KEYS;
    account + profile
  }

  /** The status part of every login answer. */
  function Status(code: LoginCode): (r: Obj)
    ensures r.Keys == {"status", "status_code", "message"}
    ensures r["status"] == VStr("ok") <==> code == LoginOk
    ensures r["status"] == VStr("ok") || r["status"] == VStr("error")
    ensures r["status_code"] == VStr(LoginCodeName(code)) && r["message"] == VStr(LoginMessage(code))
  {
    map["status" := VStr(if code == LoginOk then "ok" else "error"),
        "status_code" := VStr(LoginCodeName(code)), "message" := VStr(LoginMessage(code))]
  }

  /**
   * The login_user answer: status "ok" only for RESULT_OK, the code's name
   * and message, and on success the user's details.
   */
  function LoginReply(rooms: seq<Doc>, listed: seq<Doc>, sessions: seq<Doc>, code: LoginCode, user: Option<Doc>): (r: Obj)
    ensures forall k :: k in Status(code) ==> k in r && r[k] == Status(code)[k]
    ensures code != LoginOk ==> r == Status(code)
    ensures code == LoginOk && user.Some? ==>
      var details := UserDetails(rooms, listed, sessions, user.value);
      r.Keys == details.Keys + Status(code).Keys &&
      forall k :: k in details ==> r[k] == details[k]
  {
    var details := if code == LoginOk && user.Some? then UserDetails(rooms, listed, sessions, user.value) else map[];
    details + Status(code)
  }

  /** The rooms a `for` loop over the rooms collection visits from its cursor. */
  function Listed(rooms: seq<Doc>, cursor: int): seq<Doc>
  {
    if 0 <= cursor <= |rooms| then rooms[cursor..] else []
  }

  /**
   * login_user.exec: its own checks of login and password, then
   * Users.login, answered as LoginReply; a successful login lists the rooms
   * by iterating the rooms collection. Err is the exception Users.login
   * raises on a corrupt session. `freshId` is the ObjectId a new session
   * would get.
   */
  method LoginUserExec(app: App, env: Env, request: Obj, freshId: string) returns (response: Result<Obj>)
    requires app.Valid()
    requires forall i :: 0 <= i < |app.sessions.models| ==> IdText(app.sessions.models[i]) != freshId
    modifies app.sessions`models, app.sessions`stored, app.rooms`currentItem
    ensures app.Valid()
    ensures LoginGuard(request).Some? ==>
      response == Ok(LoginReply(app.rooms.models, [], app.sessions.models, LoginGuard(request).value, None)) &&
      app.sessions.models == old(app.sessions.models) && app.sessions.stored == old(app.sessions.stored)
    ensures LoginGuard(request).None? ==>
      var out := LoginOutcome(app.users.models, old(app.sessions.models), env, Text(request["login"]), Text(request["password"]));
      response.Err? == out.Err? &&
      (out.Ok? ==> response == Ok(LoginReply(app.rooms.models, Listed(app.rooms.models, old(app.rooms.currentItem)),
                                             app.sessions.models, out.value.0, out.value.1)))
    ensures LoginGuard(request).Some? ==> app.rooms.currentItem == old(app.rooms.currentItem)
    ensures LoginGuard(request).None? ==>
      LoginState(app.users.models, app.rooms.models, env, Text(request["login"]), Text(request["password"]), freshId,
                 old(app.sessions.models), old(app.sessions.stored), app.sessions.models, app.sessions.stored) &&
      var out := LoginOutcome(app.users.models, old(app.sessions.models), env, Text(request["login"]), Text(request["password"]));
      app.rooms.currentItem == if out.Ok? && out.value.0 == LoginOk then 0 else old(app.rooms.currentItem)
  {
    var guard := LoginGuard(request);
    if guard.Some? {
      return Ok(LoginReply(app.rooms.models, [], app.sessions.models, guard.value, None));
    }
    response := LoginAndAnswer(app, env, Text(request["login"]), Text(request["password"]), freshId);
  }

  /** The second half of login_user.exec: Users.login, then the answer with the rooms listed on success. */
  method LoginAndAnswer(app: App, env: Env, login: string, password: string, freshId: string) returns (response: Result<Obj>)
    requires app.Valid()
    requires forall i :: 0 <= i < |app.sessions.models| ==> IdText(app.sessions.models[i]) != freshId
    modifies app.sessions`models, app.sessions`stored, app.rooms`currentItem
    ensures app.Valid()
    ensures var out := LoginOutcome(app.users.models, old(app.sessions.models), env, login, password);
      response.Err? == out.Err? &&
      (out.Ok? ==> response == Ok(LoginReply(app.rooms.models, Listed(app.rooms.models, old(app.rooms.currentItem)),
                                             app.sessions.models, out.value.0, out.value.1)))
    ensures LoginState(app.users.models, app.rooms.models, env, login, password, freshId,
                       old(app.sessions.models), old(app.sessions.stored), app.sessions.models, app.sessions.stored)
    ensures var out := LoginOutcome(app.users.models, old(app.sessions.models), env, login, password);
      app.rooms.currentItem == if out.Ok? && out.value.0 == LoginOk then 0 else old(app.rooms.currentItem)
  {
    hide LoginReply, LoginCheck, LoginSessions, SaveSession, OpenedSession, LoginState, LoginOutcome, Listed, DoubleLogin;
    var r := Users.Login(app, env, login, password, freshId);
    if r.Err? {
      return Err(r.exception);
    }
    var (code, user) := r.value;
    var reply := AnswerLogin(app, code, user);
    response := Ok(reply);
  }

  /** The answer to the result of Users.login: the rooms are listed, moving the rooms cursor, only for RESULT_OK. */
  method AnswerLogin(app: App, code: LoginCode, user: Option<Doc>) returns (reply: Obj)
    requires app.Valid()
    modifies app.rooms`currentItem
    ensures app.Valid()
    ensures reply == LoginReply(app.rooms.models, Listed(app.rooms.models, old(app.rooms.currentItem)), app.sessions.models, code, user)
    ensures app.rooms.currentItem == if code == LoginOk && user.Some? then 0 else old(app.rooms.currentItem)
  {
    var listed := Listed(app.rooms.models, app.rooms.currentItem);
    if code == LoginOk && user.Some? {
      listed := ListRooms(app.rooms);
    }
    reply := LoginReply(app.rooms.models, listed, app.sessions.models, code, user);
  }

  /** The `for` loop of login_user.exec over the rooms collection: the entries of the rooms it visits. */
  method ListRooms(rooms: DBCollection) returns (listed: seq<Doc>)
    requires rooms.Valid()
    modifies rooms`currentItem
    ensures rooms.Valid()
    ensures listed == Listed(rooms.models, old(rooms.currentItem)) && rooms.currentItem == 0
  {
    listed := rooms.Traverse();
    var list := RoomList(listed);
    assert list == RoomEntries(listed);
  }

  /** The user_id and session_id of an answer: the authentication token of the next requests. */
  function Token(reply: Obj): (r: Obj)
    ensures r.Keys == {"user_id", "session_id"}
  {
    map["user_id" := Get(reply, "user_id"), "session_id" := Get(reply, "session_id")]
  }

  /** The answer to a successful login carries the user's _id and the _id of the user's first loaded session. */
  lemma ReplyToken(rooms: seq<Doc>, listed: seq<Doc>, sessions: seq<Doc>, u: Doc)
    requires By(sessions, "user_id", VStr(IdText(u))).Some?
    ensures var s := By(sessions, "user_id", VStr(IdText(u))).value;
      Token(LoginReply(rooms, listed, sessions, LoginOk, Some(u))) == map["user_id" := Get(u, ID), "session_id" := Get(s, ID)]
  {
    var reply := LoginReply(rooms, listed, sessions, LoginOk, Some(u));
    var details := UserDetails(rooms, listed, sessions, u);
    var account := Account(sessions, u);
    assert "user_id" in account && "session_id" in account;
    assert reply["user_id"] == details["user_id"] == account["user_id"];
    assert reply["session_id"] == details["session_id"] == account["session_id"];
  }

  /** A user's _id with the _id of a session of that user passes UserController.auth. */
  lemma OwnTokenAuthenticates(env: Env, users: seq<Doc>, sessions: seq<Doc>, u: Doc, s: Doc)
    requires Keyed(users) && Keyed(sessions) && u in users && s in sessions
    requires Get(s, "user_id") == VStr(IdText(u))
    ensures UserControllers.Auth(env, users, sessions, map["user_id" := Get(u, ID), "session_id" := Get(s, ID)]).None?
  {
    var k :| 0 <= k < |sessions| && sessions[k] == s;
    ByIdFindsEach(sessions, k);
    var n :| 0 <= n < |users| && users[n] == u;
    ByIdFindsEach(users, n);
  }

  /**
   * After a successful login the token in the answer passes
   * UserController.auth against the sessions the login left behind.
   */
  lemma LoginTokenAuthenticates(env: Env, users: seq<Doc>, rooms: seq<Doc>, listed: seq<Doc>, models: seq<Doc>,
                                u: Doc, freshId: string)
    requires Keyed(users) && u in users
    requires Keyed(LoginSessions(rooms, env, u, models, freshId))
    ensures var sessions := LoginSessions(rooms, env, u, models, freshId);
      UserControllers.Auth(env, users, sessions, Token(LoginReply(rooms, listed, sessions, LoginOk, Some(u)))).None?
  {
    var sessions := LoginSessions(rooms, env, u, models, freshId);
    var i := UserSessionIndex(models, VStr(IdText(u)));
    assert sessions[i] in sessions;
    var s := By(sessions, "user_id", VStr(IdText(u))).value;
    ReplyToken(rooms, listed, sessions, u);
    assert s in sessions;
    OwnTokenAuthenticates(env, users, sessions, u, s);
  }

  // ---------------------------------------------------------- logout_user

  /** The loaded sessions without the one getById finds under `id`. */
  function Without(models: seq<Doc>, id: string): (r: seq<Doc>)
    ensures IndexById(models, id).Some? ==> |r| == |models| - 1
    ensures IndexById(models, id).None? ==> r == models
    ensures forall d :: d in r ==> d in models
  {
    match IndexById(models, id)
    case Some(i) => models[..i] + models[i + 1..]
    case None => models
  }

  /**
   * logout_user.exec: removes the session named by session_id (from the
   * collection and the store) and always answers status "ok" with the
   * status code "RESULT_OK".
   */
  method LogoutUserExec(app: App, request: Obj) returns (response: Obj)
    requires app.Valid()
    modifies app.sessions`models, app.sessions`stored
    ensures app.Valid()
    ensures response == map["status" := VStr("ok"), "status_code" := VStr("RESULT_OK")]
    ensures var id := Text(Get(request, "session_id"));
      app.sessions.models == Without(old(app.sessions.models), id) &&
      app.sessions.stored == match IndexById(old(app.sessions.models), id)
        case Some(i) => StoreRemove(old(app.sessions.stored), old(app.sessions.models)[i])
        case None => old(app.sessions.stored)
  {
    var removed := app.sessions.Remove(Text(Get(request, "session_id")));
    response := map["status" := VStr("ok")];
    response := response["status_code" := VStr("RESULT_OK")];
  }

  /** After logout_user the same request no longer passes UserController.auth. */
  lemma LogoutEndsSession(env: Env, users: seq<Doc>, sessions: seq<Doc>, request: Obj)
    requires Keyed(sessions)
    ensures UserControllers.Auth(env, users, Without(sessions, Text(Get(request, "session_id"))), request).Some?
  {
    var id := Text(Get(request, "session_id"));
    var rest := Without(sessions, id);
    if "session_id" in request {
      match IndexById(sessions, id)
      case Some(i) =>
        forall j | 0 <= j < |rest|
          ensures IdText(rest[j]) != id
        {
          if j < i {
            assert rest[j] == sessions[j];
          } else {
            assert rest[j] == sessions[j + 1];
          }
        }
        assert IndexById(rest, id).None?;
      case None =>
    }
  }
}
