/**
 * AdminController: the actions only a user with the ADMIN role may run
 * (the user and room lists, reading, adding, updating and removing users,
 * sending an activation e-mail again) and the controller's `auth`, which
 * adds the role check to the authentication of UserController.
 */
module AdminControllers {
  import opened Wrappers
  import opened Strings
  import opened Json
  import opened Platform
  import opened DBModels
  import opened Queries
  import opened DBCollections
  import opened ChatApp
  import opened Users
  import opened WebSocketControllers
  import UserControllers
  import opened AdminResults
  import opened AdminListQueries
  import opened AdminValidation

  /** The actions of AdminController. */
  datatype AdminAction =
    | admin_get_users_list | admin_get_user | admin_add_user | admin_update_user
    | admin_remove_users | admin_send_activation_email | admin_get_rooms_list

  function ActionName(a: AdminAction): string
  {
    match a
    case admin_get_users_list => "admin_get_users_list"
    case admin_get_user => "admin_get_user"
    case admin_add_user => "admin_add_user"
    case admin_update_user => "admin_update_user"
    case admin_remove_users => "admin_remove_users"
    case admin_send_activation_email => "admin_send_activation_email"
    case admin_get_rooms_list => "admin_get_rooms_list"
  }

  /** AdminController.action: `valueOf` of the action name, null for any other name. */
  function Action(value: string): (r: Option<AdminAction>)
    ensures r.Some? <==> (value == "admin_get_users_list" || value == "admin_get_user" || value == "admin_add_user" ||
      value == "admin_update_user" || value == "admin_remove_users" || value == "admin_send_activation_email" ||
      value == "admin_get_rooms_list")
    ensures r.Some? ==> ActionName(r.value) == value
  {
    if value == "admin_get_users_list" then Some(admin_get_users_list)
    else if value == "admin_get_user" then Some(admin_get_user)
    else if value == "admin_add_user" then Some(admin_add_user)
    else if value == "admin_update_user" then Some(admin_update_user)
    else if value == "admin_remove_users" then Some(admin_remove_users)
    else if value == "admin_send_activation_email" then Some(admin_send_activation_email)
    else if value == "admin_get_rooms_list" then Some(admin_get_rooms_list)
    else None
  }

  // ------------------------------------------------------------------ auth

  /** The role `auth` reads from a user: the role code as an Int, USER when it is not a number. */
  function RoleOf(u: Doc): UserRole
  {
    match ParseInt(Text(Get(u, "role")))
    case Some(code) => RoleByCode(code)
    case None => USER
  }

  /**
   * AdminController.auth: the authentication of UserController first; then
   * the requesting user must have a role, and that role must be ADMIN.
   * Every refusal is the AUTHENTICATION_ERROR response.
   */
  function Auth(env: Env, users: seq<Doc>, sessions: seq<Doc>, request: Obj): (r: Option<Obj>)
    ensures r.Some? ==> r.value == CodeError(env, AUTHENTICATION_ERROR)
    ensures r.None? <==> (UserControllers.Auth(env, users, sessions, request).None? &&
      var u := ById(users, Text(request["user_id"])).value;
      Get(u, "role") != VNull && ParseInt(Text(u["role"])) == Some(2))
  {
    var first := UserControllers.Auth(env, users, sessions, request);
    if first.Some? then first
    else
      var u := ById(users, Text(request["user_id"])).value;
      if Get(u, "role") == VNull then Some(CodeError(env, AUTHENTICATION_ERROR))
      else if RoleOf(u) != ADMIN then Some(CodeError(env, AUTHENTICATION_ERROR))
      else None
  }

  /**
   * A request the admin `auth` lets through comes from a loaded user whose
   * stored role is the ADMIN code 2 and who owns the request's session.
   */
  lemma AuthAdmitsAdmins(env: Env, users: seq<Doc>, sessions: seq<Doc>, request: Obj)
    requires forall u :: u in users ==> WellTyped(UserSchema, u)
    requires Auth(env, users, sessions, request).None?
    ensures exists u :: u in users && IdText(u) == Text(request["user_id"]) && Get(u, "role") == VInt(RoleValue(ADMIN))
    ensures ById(sessions, Text(request["session_id"])).Some? &&
      Get(ById(sessions, Text(request["session_id"])).value, "user_id") == VStr(Text(request["user_id"]))
  {
    var u := ById(users, Text(request["user_id"])).value;
    assert u in users;
    assert "role" in u;
    ParseIntText(u["role"].i);
  }

  // ----------------------------------------------------------- list actions

  /** The sort pair a prepared query may carry: an entry of the accepted sort object, or none without one. */
  predicate SortChosen(env: Env, request: Obj, sort: Option<(string, string)>)
  {
    match SortCheckOf(env, request)
    case SortPass(m) => sort.Some? && sort.value.0 in m && sort.value.1 == Text(m[sort.value.0])
    case _ => sort == None
  }

  /** The success answer of a list action. */
  function ListAnswer(rows: seq<Value>): Obj
  {
    AdminDone()["list" := VArr(rows)]
  }

  /**
   * What a list action answers for an accepted query: getList's exception
   * when it throws, otherwise RESULT_OK with the rows of getListJSON.
   */
  predicate Listed(schema: Schema, models: seq<Doc>, query: Obj, present: (Item, string) -> string,
                   order: (Item, Item, (string, string)) -> Option<int>, response: Result<Obj>)
  {
    ReadParams(query).Ok? &&
    var items := ListOf(schema, ReadParams(query).value, present, order, models);
    (response.Err? <==> items.Err?) &&
    (items.Ok? ==> response == Ok(ListAnswer(RowsOf(schema, FieldsParam(query), Get(query, "get_presentations") != VNull, present, items.value))))
  }

  /** No user field is named like another field's `_text` companion: no user field ends in 't'. */
  lemma UserSchemaNoTextClash()
    ensures NoTextClash(UserSchema)
  {
    forall f | f in UserSchema ensures f + TEXT_SUFFIX !in UserSchema {
      var s := f + TEXT_SUFFIX;
      assert s[|s| - 1] == 't';
    }
  }

  lemma RoomSchemaNoTextClash()
    ensures NoTextClash(RoomSchema)
  {
    forall f | f in RoomSchema ensures f + TEXT_SUFFIX !in RoomSchema {
      var s := f + TEXT_SUFFIX;
      assert s[|s| - 1] == 't';
    }
  }

  /**
   * The body shared by admin_get_users_list and admin_get_rooms_list:
   * prepareListQuery's error is answered as it is; an accepted query is
   * handed to the collection's getListJSON and its rows are the "list".
   */
  method ListExec(collection: DBCollection, env: Env, request: Obj, present: (Item, string) -> string,
                  order: (Item, Item, (string, string)) -> Option<int>) returns (response: Result<Obj>)
    requires NoTextClash(collection.schema)
    ensures ListQueryError(env, request).Some? ==> response == Ok(ListQueryError(env, request).value)
    ensures ListQueryError(env, request).None? ==> exists sort :: (SortChosen(env, request, sort) &&
      ReadParams(Prepared(env, request, sort)) == Ok(AcceptedParams(env, request, sort)) &&
      Listed(collection.schema, collection.models, Prepared(env, request, sort), present, order, response))
    ensures response.Ok? && Get(response.value, "status") == VStr("ok") ==>
      Get(response.value, "list").VArr? && NoPasswords(response.value["list"].items)
  {
    var query := PrepareListQuery(env, request);
    if "status" in query && query["status"] == VStr("error") {
      return Ok(query);
    }
    ghost var sort := ChosenSort(env, request, query);
    QueryReadBack(env, request, sort);
    response := ListRows(collection, query, present, order);
  }

  /** The sort pair of a query prepareListQuery accepted. */
  lemma ChosenSort(env: Env, request: Obj, query: Obj) returns (sort: Option<(string, string)>)
    requires ListQueryError(env, request).None?
    requires !SortCheckOf(env, request).SortPass? ==> query == Prepared(env, request, None)
    requires SortCheckOf(env, request).SortPass? ==> var m := SortCheckOf(env, request).entries;
      exists k :: k in m && query == Prepared(env, request, Some((k, Text(m[k]))))
    ensures SortChosen(env, request, sort) && query == Prepared(env, request, sort)
  {
    sort := None;
    if SortCheckOf(env, request).SortPass? {
      var m := SortCheckOf(env, request).entries;
      var k :| k in m && query == Prepared(env, request, Some((k, Text(m[k]))));
      sort := Some((k, Text(m[k])));
    }
  }

  /** The second half of a list action: getListJSON on the query, and the answer. */
  method ListRows(collection: DBCollection, query: Obj, present: (Item, string) -> string,
                  order: (Item, Item, (string, string)) -> Option<int>) returns (response: Result<Obj>)
    requires NoTextClash(collection.schema) && ReadParams(query).Ok?
    ensures Listed(collection.schema, collection.models, query, present, order, response)
    ensures response.Ok? ==> Get(response.value, "list").VArr? && NoPasswords(response.value["list"].items)
  {
    var rows := collection.GetListJSON(query, present, order);
    if rows.Err? {
      return Err(rows.exception);
    }
    response := Ok(ListAnswer(rows.value));
  }

  /** admin_get_users_list.exec: the users list, with the users' presentations and sort order. */
  method GetUsersList(app: App, env: Env, request: Obj) returns (response: Result<Obj>)
    requires app.Valid()
    ensures ListQueryError(env, request).Some? ==> response == Ok(ListQueryError(env, request).value)
    ensures ListQueryError(env, request).None? ==> exists sort :: (SortChosen(env, request, sort) &&
      ReadParams(Prepared(env, request, sort)) == Ok(AcceptedParams(env, request, sort)) &&
      Listed(UserSchema, app.users.models, Prepared(env, request, sort), Presenter(app.rooms.models, env),
             UserOrder(app.rooms.models, env), response))
    ensures response.Ok? && Get(response.value, "status") == VStr("ok") ==>
      Get(response.value, "list").VArr? && NoPasswords(response.value["list"].items)
  {
    UserSchemaNoTextClash();
    response := ListExec(app.users, env, request, Presenter(app.rooms.models, env), UserOrder(app.rooms.models, env));
  }

  /** admin_get_rooms_list.exec: the rooms list, with the base presentations and sort order. */
  method GetRoomsList(app: App, env: Env, request: Obj) returns (response: Result<Obj>)
    requires app.Valid()
    ensures ListQueryError(env, request).Some? ==> response == Ok(ListQueryError(env, request).value)
    ensures ListQueryError(env, request).None? ==> exists sort :: (SortChosen(env, request, sort) &&
      ReadParams(Prepared(env, request, sort)) == Ok(AcceptedParams(env, request, sort)) &&
      Listed(RoomSchema, app.rooms.models, Prepared(env, request, sort), FieldPresentation, BaseOrder(RoomSchema), response))
  {
    RoomSchemaNoTextClash();
    response := ListExec(app.rooms, env, request, FieldPresentation, BaseOrder(RoomSchema));
  }

  // -------------------------------------------------------- admin_get_user

  /** The condition of admin_get_user: "query" as a JSON object, turned into a (field, value) pair. */
  function Condition(env: Env, request: Obj): Option<(string, Value)>
  {
    match ToJSONObject(env.parse, Get(request, "query"))
    case None => None
    case Some(c) => env.jsonToPair(c)
  }

  /** A user as an admin answer shows it: User.toJSON without the password. */
  function Shown(env: Env, u: Doc): (r: Value)
    ensures r.VObj? && "password" !in r.fields
  {
    VObj(env.userToJSON(u) - {"password"})
  }

  /**
   * admin_get_user.exec: INCORRECT_FIELD_VALUE for "query" when it is not
   * a one-entry object; INCORRECT_FIELD_VALUE for the field when the users
   * schema has no such field; OBJECT_NOT_FOUND when no user has the value;
   * otherwise the first user with the value, without its password.
   */
  function GetUser(env: Env, users: seq<Doc>, request: Obj): (r: Obj)
    ensures Get(r, "status") == VStr("ok") <==>
      Condition(env, request).Some? && Condition(env, request).value.0 in UserSchema &&
      By(users, Condition(env, request).value.0, Condition(env, request).value.1).Some?
    ensures Get(r, "status") == VStr("ok") ==> var (field, value) := Condition(env, request).value;
      exists i :: 0 <= i < |users| && Get(users[i], field) == value && Get(r, "user") == Shown(env, users[i]) &&
        forall j :: 0 <= j < i ==> Get(users[j], field) != value
    ensures Get(r, "status") != VStr("ok") ==> r.Keys == {"status", "status_code", "field"} && r["status"] == VStr("error")
    ensures Condition(env, request).None? ==> r == AdminError(IncorrectValue, "query")
    ensures Condition(env, request).Some? && Condition(env, request).value.0 !in UserSchema ==>
      r == AdminError(IncorrectValue, Condition(env, request).value.0)
    ensures (Condition(env, request).Some? && Condition(env, request).value.0 in UserSchema &&
      By(users, Condition(env, request).value.0, Condition(env, request).value.1).None?) ==>
      r == AdminError(ObjectNotFound, "query")
  {
    var response := AdminError(IncorrectValue, "query");
    match Condition(env, request)
    case None => response
    case Some((field, value)) =>
      if field !in UserSchema then response["field" := VStr(field)]
      else match By(users, field, value)
        case None => response["status_code" := VCode(AdminCodeName(ObjectNotFound))]
        case Some(u) =>
          response["status" := VStr("ok")]["status_code" := VCode(AdminCodeName(AdminOk))]["user" := Shown(env, u)]
  }

  // ------------------------------------------------- add_user, update_user

  /** The "fields" array of the request, when parseJSONArrayFromRequest accepts it. */
  function Submitted(env: Env, request: Obj): (r: Option<seq<Value>>)
    ensures r.Some? <==> Get(ParseJSONArrayFromRequest(env.parse, request, "fields"), "status") == VStr("ok")
    ensures r.Some? ==> ParseJSONArrayFromRequest(env.parse, request, "fields")["result"] == VArr(r.value) && r.value != []
  {
    var parsed := ParseJSONArrayFromRequest(env.parse, request, "fields");
    if Get(parsed, "status") == VStr("ok") then Some(ArrayOf(env.parse, Get(request, "fields")).value) else None
  }

  /** The success answer of add_user and update_user: RESULT_OK and the user without its password. */
  function UserAnswer(env: Env, d: Doc): Obj
  {
    AdminDone()["user" := Shown(env, d)]
  }

  /** The users collection keeps only well-typed users. */
  lemma LoadedUsersWellTyped(app: App)
    requires app.Valid()
    ensures AllWellTyped(app.users.models)
  {
    forall u | u in app.users.models ensures WellTyped(UserSchema, u) {
      var i :| 0 <= i < |app.users.models| && app.users.models[i] == u;
    }
  }

  /** A fresh id is no loaded user's `_id`. */
  lemma FreshIdUnused(models: seq<Doc>, freshId: string)
    requires forall i :: 0 <= i < |models| ==> IdText(models[i]) != freshId
    ensures !(exists i :: 0 <= i < |models| && Get(models[i], ID) == Get(map[ID := VStr(freshId)], ID))
  {
  }

  /** Where admin_add_user goes: an answer given without storing anything, or a validated user to store. */
  datatype Outcome = Answer(response: Obj) | Store(doc: Doc)

  /**
   * The checks of admin_add_user: the refused "fields" array and the
   * validation errors are answered as they are; otherwise the validated
   * user is stored.
   */
  function AddOutcome(env: Env, users: seq<Doc>, rooms: seq<Doc>, request: Obj): (o: Outcome)
    requires AllWellTyped(users)
    ensures Submitted(env, request).None? ==> o == Answer(ParseJSONArrayFromRequest(env.parse, request, "fields"))
    ensures Submitted(env, request).Some? ==>
      var v := ValidationOf(env, users, rooms, Submitted(env, request).value, None);
      v.Ok? && (v.value.Refused? ==> o == Answer(v.value.error)) && (v.value.Accepted? ==> o == Store(v.value.doc))
    ensures o.Store? ==> (WellTyped(UserSchema, o.doc) && ID !in o.doc &&
      "login" in o.doc && "email" in o.doc && "default_room" in o.doc && ById(rooms, Text(o.doc["default_room"])).Some? &&
      Get(o.doc, "role") in {VInt(1), VInt(2)})
  {
    match Submitted(env, request)
    case None => Answer(ParseJSONArrayFromRequest(env.parse, request, "fields"))
    case Some(fields) =>
      NeverThrows(env, users, rooms, fields, None);
      match ValidationOf(env, users, rooms, fields, None).value
      case Refused(error) => Answer(error)
      case Accepted(d) => AcceptedUser(env, users, rooms, fields, None); Store(d)
  }

  /** The first half of admin_add_user.exec: parsing "fields" and validateFields. */
  method AddDecision(app: App, env: Env, request: Obj) returns (o: Outcome)
    requires app.Valid()
    ensures AllWellTyped(app.users.models) && o == AddOutcome(env, app.users.models, app.rooms.models, request)
  {
    LoadedUsersWellTyped(app);
    var parsed := ParseJSONArrayFromRequest(env.parse, request, "fields");
    if Get(parsed, "status") != VStr("ok") {
      return Answer(parsed);
    }
    var fields := parsed["result"].items;
    NeverThrows(env, app.users.models, app.rooms.models, fields, None);
    var result := ValidateFields(env, app.users.models, app.rooms.models, fields, None);
    match result.value
    case Refused(error) =>
      o := Answer(error);
    case Accepted(doc) =>
      o := Store(doc);
  }

  /**
   * admin_add_user.exec with the new user's `_id` chosen before it is
   * saved: an accepted user is stored under `freshId` and added to the
   * users collection with the same `_id`, so the user held in memory is
   * the stored record.
   */
  method AddUser(app: App, env: Env, request: Obj, freshId: string) returns (response: Obj)
    requires app.Valid() && AllWellTyped(app.users.models)
    requires forall i :: 0 <= i < |app.users.models| ==> IdText(app.users.models[i]) != freshId
    modifies app.users`models, app.users`stored
    ensures app.Valid()
    ensures AddOutcome(env, old(app.users.models), app.rooms.models, request).Answer? ==>
      response == AddOutcome(env, old(app.users.models), app.rooms.models, request).response &&
      app.users.models == old(app.users.models) && app.users.stored == old(app.users.stored)
    ensures AddOutcome(env, old(app.users.models), app.rooms.models, request).Store? ==>
      var d := AddOutcome(env, old(app.users.models), app.rooms.models, request).doc[ID := VStr(freshId)];
      app.users.models == old(app.users.models) + [d] &&
      app.users.stored == StoreSave(old(app.users.stored), d, freshId) &&
      response == UserAnswer(env, d) &&
      freshId in app.users.stored && forall k :: k in d ==> k in app.users.stored[freshId] && app.users.stored[freshId][k] == d[k]
  {
    var outcome := AddDecision(app, env, request);
    match outcome
    case Answer(r) =>
      response := r;
    case Store(doc) =>
      InsertUser(app, doc, freshId);
      response := UserAnswer(env, doc[ID := VStr(freshId)]);
  }

  /** The corrected store step: the `_id` is set, then `save` and addModel both use it. */
  method InsertUser(app: App, doc: Doc, freshId: string)
    requires app.Valid() && WellTyped(UserSchema, doc) && ID !in doc
    requires forall i :: 0 <= i < |app.users.models| ==> IdText(app.users.models[i]) != freshId
    modifies app.users`models, app.users`stored
    ensures app.Valid()
    ensures app.users.models == old(app.users.models) + [doc[ID := VStr(freshId)]]
    ensures app.users.stored == StoreSave(old(app.users.stored), doc[ID := VStr(freshId)], freshId)
  {
    WellTypedWrite(UserSchema, doc, ID, VStr(freshId));
    var model := new DBModel(UserSchema);
    model.doc := doc[ID := VStr(freshId)];
    app.users.Save(model.doc, freshId);
    FreshIdUnused(app.users.models, freshId);
    app.users.AddModel(model, freshId);
  }

  /**
   * admin_add_user.exec as written: `save` stores the new user, which has
   * no `_id`, under a fresh ObjectId (`saveId`) that it does not write back;
   * addModel then gives the model another fresh ObjectId (`memoryId`). When
   * the two differ, the user held in memory names no stored record.
   */
  method AddUserAsWritten(app: App, env: Env, request: Obj, saveId: string, memoryId: string) returns (response: Obj)
    requires app.Valid() && AllWellTyped(app.users.models)
    requires forall i :: 0 <= i < |app.users.models| ==> IdText(app.users.models[i]) != memoryId
    modifies app.users`models, app.users`stored
    ensures app.Valid()
    ensures AddOutcome(env, old(app.users.models), app.rooms.models, request).Answer? ==>
      response == AddOutcome(env, old(app.users.models), app.rooms.models, request).response &&
      app.users.models == old(app.users.models) && app.users.stored == old(app.users.stored)
    ensures AddOutcome(env, old(app.users.models), app.rooms.models, request).Store? ==>
      var d := AddOutcome(env, old(app.users.models), app.rooms.models, request).doc;
      app.users.models == old(app.users.models) + [d[ID := VStr(memoryId)]] &&
      app.users.stored == StoreSave(old(app.users.stored), d, saveId) &&
      response == UserAnswer(env, d[ID := VStr(memoryId)]) &&
      (memoryId != saveId && memoryId !in old(app.users.stored) ==> memoryId !in app.users.stored)
  {
    var outcome := AddDecision(app, env, request);
    match outcome
    case Answer(r) =>
      response := r;
    case Store(doc) =>
      InsertUserAsWritten(app, doc, saveId, memoryId);
      response := UserAnswer(env, doc[ID := VStr(memoryId)]);
  }

  /** The store step as written: `save` under one fresh ObjectId, addModel under another. */
  method InsertUserAsWritten(app: App, doc: Doc, saveId: string, memoryId: string)
    requires app.Valid() && WellTyped(UserSchema, doc) && ID !in doc
    requires forall i :: 0 <= i < |app.users.models| ==> IdText(app.users.models[i]) != memoryId
    modifies app.users`models, app.users`stored
    ensures app.Valid()
    ensures app.users.models == old(app.users.models) + [doc[ID := VStr(memoryId)]]
    ensures app.users.stored == StoreSave(old(app.users.stored), doc, saveId)
  {
    var model := new DBModel(UserSchema);
    model.doc := doc;
    app.users.Save(model.doc, saveId);
    FreshIdUnused(app.users.models, memoryId);
    app.users.AddModel(model, memoryId);
  }

  /**
   * The store step as written, into an empty store with `save` drawing the
   * ObjectId "a" and addModel drawing "b": the user held in memory is "b",
   * and the store holds "a" and no "b".
   */
  lemma StoredUserLostAsWritten(doc: Doc)
    requires ID !in doc
    ensures var stored := StoreSave(map[], doc, "a");
      stored.Keys == {"a"} && IdText(doc[ID := VStr("b")]) !in stored
  {
    assert IdText(doc[ID := VStr("b")]) == "b";
  }

  /**
   * admin_update_user.exec: the refused "fields" array is answered as it
   * is; a missing or null "id" is FIELD_IS_EMPTY for "id"; validation
   * errors (OBJECT_NOT_FOUND for an unknown id) are answered as they are;
   * an accepted user is saved and replaces the loaded user, whose `_id` it
   * keeps.
   */
  method UpdateUser(app: App, env: Env, request: Obj) returns (response: Obj)
    requires app.Valid()
    modifies app.users`models, app.users`stored
    ensures app.Valid()
    ensures Submitted(env, request).None? ==>
      response == ParseJSONArrayFromRequest(env.parse, request, "fields") &&
      app.users.models == old(app.users.models) && app.users.stored == old(app.users.stored)
    ensures Submitted(env, request).Some? && Get(request, "id") == VNull ==>
      response == AdminError(FieldEmpty, "id") &&
      app.users.models == old(app.users.models) && app.users.stored == old(app.users.stored)
    ensures Submitted(env, request).Some? && Get(request, "id") != VNull ==>
      var id := Text(request["id"]);
      var v := ValidationOf(env, old(app.users.models), app.rooms.models, Submitted(env, request).value, Some(id));
      v.Ok? &&
      (v.value.Refused? ==> (response == v.value.error &&
        app.users.models == old(app.users.models) && app.users.stored == old(app.users.stored))) &&
      (v.value.Accepted? ==> var d := v.value.doc;
        IndexById(old(app.users.models), id).Some? &&
        app.users.models == old(app.users.models)[IndexById(old(app.users.models), id).value := d] &&
        ById(app.users.models, id) == Some(d) &&
        app.users.stored == StoreSave(old(app.users.stored), d, id) && id in app.users.stored &&
        response == UserAnswer(env, d))
  {
    var parsed := ParseJSONArrayFromRequest(env.parse, request, "fields");
    if Get(parsed, "status") != VStr("ok") {
      return parsed;
    }
    var fields := parsed["result"].items;
    if "id" !in request || request["id"] == VNull {
      return AdminError(FieldEmpty, "id");
    }
    var id := Text(request["id"]);
    LoadedUsersWellTyped(app);
    NeverThrows(env, app.users.models, app.rooms.models, fields, Some(id));
    var result := ValidateFields(env, app.users.models, app.rooms.models, fields, Some(id));
    match result.value
    case Refused(error) =>
      response := error;
    case Accepted(doc) =>
      AcceptedUser(env, app.users.models, app.rooms.models, fields, Some(id));
      ReplaceUser(app, id, doc);
      response := UserAnswer(env, doc);
  }

  /** The update itself: `save` on the validated user, then the loaded user takes its document. */
  method ReplaceUser(app: App, id: string, d: Doc)
    requires app.Valid() && ById(app.users.models, id).Some?
    requires WellTyped(UserSchema, d) && Get(d, ID) == Get(ById(app.users.models, id).value, ID)
    modifies app.users`models, app.users`stored
    ensures app.Valid()
    ensures IndexById(old(app.users.models), id).Some?
    ensures app.users.models == old(app.users.models)[IndexById(old(app.users.models), id).value := d]
    ensures ById(app.users.models, id) == Some(d)
    ensures app.users.stored == StoreSave(old(app.users.stored), d, id) && id in app.users.stored
  {
    ghost var before := app.users.models;
    var i := IndexById(app.users.models, id).value;
    assert ID in before[i] && ID in d;
    app.users.Save(d, id);
    app.users.Put(i, d);
    KeyedById(app.users.models, id);
    ByIdFindsEach(app.users.models, i);
  }

  // ------------------------------------------- unique logins and e-mails

  /** No two loaded users share a non-null value of `field`. */
  predicate LoadedUnique(models: seq<Doc>, field: string)
  {
    forall i, j :: 0 <= i < |models| && 0 <= j < |models| && i != j && Get(models[i], field) != VNull ==>
      Get(models[i], field) != Get(models[j], field)
  }

  /** Appending a user whose `field` no loaded user holds keeps the field unique. */
  lemma UniqueAppend(models: seq<Doc>, d: Doc, field: string)
    requires LoadedUnique(models, field)
    requires forall m :: m in models ==> Get(m, field) != Get(d, field)
    ensures LoadedUnique(models + [d], field)
  {
    var r := models + [d];
    forall i, j | 0 <= i < |r| && 0 <= j < |r| && i != j && Get(r[i], field) != VNull
      ensures Get(r[i], field) != Get(r[j], field)
    {
      if i == |models| {
        assert r[j] in models;
      } else if j == |models| {
        assert r[i] in models;
      } else {
        assert r[i] == models[i] && r[j] == models[j];
      }
    }
  }

  /** Replacing the user at `i` by one whose `field` no other loaded user holds keeps the field unique. */
  lemma UniqueReplace(models: seq<Doc>, i: nat, d: Doc, field: string)
    requires i < |models| && LoadedUnique(models, field)
    requires forall j :: 0 <= j < |models| && j != i ==> Get(models[j], field) != Get(d, field)
    ensures LoadedUnique(models[i := d], field)
  {
  }

  /**
   * admin_add_user keeps logins and e-mails unique over the loaded users:
   * the stored user's login and e-mail are held by no loaded user.
   */
  lemma AddKeepsUnique(env: Env, users: seq<Doc>, rooms: seq<Doc>, request: Obj, freshId: string)
    requires AllWellTyped(users) && LoadedUnique(users, "login") && LoadedUnique(users, "email")
    requires AddOutcome(env, users, rooms, request).Store?
    ensures var d := AddOutcome(env, users, rooms, request).doc[ID := VStr(freshId)];
      LoadedUnique(users + [d], "login") && LoadedUnique(users + [d], "email")
  {
    hide AddOutcome, ValidationOf, Submitted, By, ParseJSONArrayFromRequest;
    var fields := Submitted(env, request).value;
    AcceptedNotTaken(env, users, rooms, fields, None);
    var doc := AddOutcome(env, users, rooms, request).doc;
    assert doc == ValidationOf(env, users, rooms, fields, None).value.doc;
    var d := doc[ID := VStr(freshId)];
    assert Get(d, "login") == Get(doc, "login") && Get(d, "email") == Get(doc, "email");
    UniqueAppend(users, d, "login");
    UniqueAppend(users, d, "email");
  }

  /**
   * admin_update_user keeps logins and e-mails unique over the loaded
   * users, when the user it updates holds its login and e-mail as strings
   * without surrounding whitespace: the check lets through only the
   * updated user's own trimmed values.
   */
  lemma UpdateKeepsUnique(env: Env, users: seq<Doc>, rooms: seq<Doc>, fields: seq<Value>, id: string)
    requires AllWellTyped(users) && LoadedUnique(users, "login") && LoadedUnique(users, "email")
    requires ValidationOf(env, users, rooms, fields, Some(id)).Ok? && ValidationOf(env, users, rooms, fields, Some(id)).value.Accepted?
    requires ById(users, id).Some?
    requires Get(ById(users, id).value, "login") == VStr(Trim(Text(Get(ById(users, id).value, "login"))))
    requires Get(ById(users, id).value, "email") == VStr(Trim(Text(Get(ById(users, id).value, "email"))))
    ensures var d := ValidationOf(env, users, rooms, fields, Some(id)).value.doc;
      var i := IndexById(users, id).value;
      LoadedUnique(users[i := d], "login") && LoadedUnique(users[i := d], "email")
  {
    hide ValidationOf, By, Trim, IndexById, ById;
    AcceptedUser(env, users, rooms, fields, Some(id));
    UserFieldTypes();
    var d := ValidationOf(env, users, rooms, fields, Some(id)).value.doc;
    var i := IndexById(users, id).value;
    assert Get(d, "login") == VStr(Text(Get(d, "login"))) && Get(d, "email") == VStr(Text(Get(d, "email")));
    OthersDiffer(users, i, d, "login");
    OthersDiffer(users, i, d, "email");
    UniqueReplace(users, i, d, "login");
    UniqueReplace(users, i, d, "email");
  }

  /** When only the user at `i` may hold the new non-null value, no other user holds it. */
  lemma OthersDiffer(models: seq<Doc>, i: nat, d: Doc, field: string)
    requires i < |models| && LoadedUnique(models, field) && Get(d, field) != VNull
    requires By(models, field, Get(d, field)).Some? ==> Get(models[i], field) == Get(d, field)
    ensures forall j :: 0 <= j < |models| && j != i ==> Get(models[j], field) != Get(d, field)
  {
  }

  // ---------------------------------------------------- admin_remove_users

  /**
   * The ids admin_remove_users keeps from its list: the string items, in
   * order, except the requesting user's own id.
   */
  function Kept(items: seq<Value>, self: string): (ids: seq<string>)
    ensures forall id :: id in ids <==> VStr(id) in items && id != self
  {
    if items == [] then []
    else
      var last := items[|items| - 1];
      assert forall v :: v in items <==> v in items[..|items| - 1] || v == last;
      Kept(items[..|items| - 1], self) + (if last.VStr? && last.s != self then [last.s] else [])
  }

  /** The loop of admin_remove_users over the list. */
  method CollectIds(items: seq<Value>, self: string) returns (ids: seq<string>)
    ensures ids == Kept(items, self)
  {
    ids := [];
    var i := 0;
    while i < |items|
      invariant 0 <= i <= |items|
      invariant ids == Kept(items[..i], self)
    {
      var item := items[i];
      assert items[..i + 1][..i] == items[..i];
      if item.VStr? && item.s != self {
        ids := ids + [item.s];
      }
      i := i + 1;
    }
    assert items[..i] == items;
  }

  /** The list array of the request, when parseJSONArrayFromRequest accepts it. */
  function Listing(env: Env, request: Obj): (r: Option<seq<Value>>)
    ensures r.Some? <==> Get(ParseJSONArrayFromRequest(env.parse, request, "list"), "status") == VStr("ok")
    ensures r.Some? ==> ParseJSONArrayFromRequest(env.parse, request, "list")["result"] == VArr(r.value)
  {
    var parsed := ParseJSONArrayFromRequest(env.parse, request, "list");
    if Get(parsed, "status") == VStr("ok") then Some(ArrayOf(env.parse, Get(request, "list")).value) else None
  }

  /**
   * admin_remove_users.exec: a null "list" is FIELD_IS_EMPTY for "list";
   * a list parseJSONArrayFromRequest refuses is answered with its error;
   * a list with no other user's id is FIELD_IS_EMPTY for "list" again;
   * otherwise removeUsers runs on the kept ids and the answer carries the
   * number of users removed. The requesting admin is never removed.
   */
  method RemoveUsers(app: App, env: Env, request: Obj) returns (response: Obj)
    requires app.Valid()
    modifies app.users`models, app.users`stored, app.sessions`models, app.sessions`stored
    ensures app.Valid()
    ensures Get(request, "list") == VNull ==> response == AdminError(FieldEmpty, "list")
    ensures Get(request, "list") != VNull && Listing(env, request).None? ==>
      response == ParseJSONArrayFromRequest(env.parse, request, "list")
    ensures (Get(request, "list") != VNull && Listing(env, request).Some? &&
      Kept(Listing(env, request).value, Text(Get(request, "user_id"))) == []) ==> response == AdminError(FieldEmpty, "list")
    ensures (Get(request, "list") == VNull || Listing(env, request).None? ||
      Kept(Listing(env, request).value, Text(Get(request, "user_id"))) == []) ==>
      app.users.models == old(app.users.models) && app.users.stored == old(app.users.stored) &&
      app.sessions.models == old(app.sessions.models) && app.sessions.stored == old(app.sessions.stored)
    ensures (Get(request, "list") != VNull && Listing(env, request).Some? &&
      Kept(Listing(env, request).value, Text(Get(request, "user_id"))) != []) ==>
      var ids := Kept(Listing(env, request).value, Text(Get(request, "user_id")));
      var gone := Removable(old(app.users.models), ids);
      response == AdminDone()["count" := VInt(|gone|)] &&
      Text(Get(request, "user_id")) !in gone &&
      app.users.models == Filter(old(app.users.models), Unnamed(ids)) &&
      app.users.stored == old(app.users.stored) - gone &&
      app.sessions.models == Filter(old(app.sessions.models), NotOwnedBy(gone)) &&
      app.sessions.stored == old(app.sessions.stored) - OwnedKeys(old(app.sessions.models), gone)
  {
    if Get(request, "list") == VNull {
      return AdminError(FieldEmpty, "list");
    }
    var parsed := ParseJSONArrayFromRequest(env.parse, request, "list");
    if Get(parsed, "status") != VStr("ok") {
      return parsed;
    }
    var ids := CollectIds(parsed["result"].items, Text(Get(request, "user_id")));
    if |ids| == 0 {
      return AdminError(FieldEmpty, "list");
    }
    var count := Users.RemoveUsers(app, ids);
    response := AdminDone()["count" := VInt(count)];
  }

  // ------------------------------------------ admin_send_activation_email

  /**
   * admin_send_activation_email.exec, given whether the mail went out:
   * FIELD_IS_EMPTY when "id" is missing, not a string or empty;
   * OBJECT_NOT_FOUND when no loaded user has that `_id`;
   * RESULT_ERROR_ACTIVATION_EMAIL when sending fails; RESULT_OK otherwise.
   * Every answer names the field "id".
   */
  function SendActivationEmail(users: seq<Doc>, request: Obj, emailSent: bool): (r: Obj)
    ensures r.Keys == {"status", "status_code", "field"} && r["field"] == VStr("id")
    ensures Get(r, "status") == VStr("ok") <==>
      Get(request, "id").VStr? && request["id"].s != "" && ById(users, request["id"].s).Some? && emailSent
    ensures Get(r, "status") != VStr("ok") ==> r["status"] == VStr("error")
    ensures !Get(request, "id").VStr? || request["id"].s == "" ==> r["status_code"] == VCode(AdminCodeName(FieldEmpty))
    ensures Get(request, "id").VStr? && request["id"].s != "" && ById(users, request["id"].s).None? ==>
      r["status_code"] == VCode(AdminCodeName(ObjectNotFound))
    ensures Get(request, "id").VStr? && request["id"].s != "" && ById(users, request["id"].s).Some? ==>
      r["status_code"] == VCode(RegisterCodeName(if emailSent then RegisterOk else ActivationEmail))
  {
    var response := map["status" := VStr("error"), "field" := VStr("id")];
    if !Get(request, "id").VStr? || request["id"].s == "" then
      response["status_code" := VCode(AdminCodeName(FieldEmpty))]
    else if ById(users, request["id"].s).None? then
      response["status_code" := VCode(AdminCodeName(ObjectNotFound))]
    else if !emailSent then
      response["status_code" := VCode(RegisterCodeName(ActivationEmail))]
    else
      response["status" := VStr("ok")]["status_code" := VCode(RegisterCodeName(RegisterOk))]
  }
}
