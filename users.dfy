/**
 * interactors/Users.kt: the users collection. Registration with e-mail
 * activation, activation, login (by password, or by user id and session
 * id) with one session per user, profile updates, removal of users with
 * their sessions, and the users' own field presentations and sort order.
 */
module Users {
  import opened Wrappers
  import opened Strings
  import opened Json
  import opened Platform
  import opened DBModels
  import opened Queries
  import opened DBCollections
  import opened ChatApp
  import opened Sessions

  /** A login within this many seconds of the session's last activity is refused as a double login. */
  const USER_ACTIVITY_TIMEOUT := 10

  // ---------------------------------------------------------- result codes

  /** UserRegisterResultCode. */
  datatype RegisterCode = RegisterOk | LoginExists | EmailExists | NoLogin | NoPassword | NoEmail
                        | ActivationEmail | RegisterUnknown

  function RegisterCodeName(c: RegisterCode): string
  {
    match c
    case RegisterOk => "RESULT_OK"
    case LoginExists => "RESULT_ERROR_LOGIN_EXISTS"
    case EmailExists => "RESULT_ERROR_EMAIL_EXISTS"
    case NoLogin => "RESULT_ERROR_NO_LOGIN"
    case NoPassword => "RESULT_ERROR_NO_PASSWORD"
    case NoEmail => "RESULT_ERROR_NO_EMAIL"
    case ActivationEmail => "RESULT_ERROR_ACTIVATION_EMAIL"
    case RegisterUnknown => "RESULT_ERROR_UNKNOWN"
  }

  function RegisterMessage(c: RegisterCode): string
  {
    match c
    case RegisterOk => "You are registered. Activation email sent. Please, open it and activate your account"
    case LoginExists => "User with provided login already exists."
    case EmailExists => "User with provided email already exists."
    case NoLogin => "Login is required."
    case NoPassword => "Password is required."
    case NoEmail => "Email is required."
    case ActivationEmail => "Failed to send activation email. Please contact support."
    case RegisterUnknown => "Unknown error. Please contact support"
  }

  /** UserActivationResultCode. */
  datatype ActivationCode = ActivationOk | NoUser | AlreadyActivated | ActivationUnknown

  function ActivationMessage(c: ActivationCode): string
  {
    match c
    case ActivationOk => "Activation successful. You can login now."
    case NoUser => "User account not found. Please, try to register again or contact support."
    case AlreadyActivated => "User account already activated. You can login now."
    case ActivationUnknown => "Unknown error. Please, contact support."
  }

  /** The HTTP status of the activation page: 200 exactly for a successful activation. */
  function ActivationHttpCode(c: ActivationCode): (r: int)
    ensures r == 200 <==> c == ActivationOk
  {
    match c
    case ActivationOk => 200
    case NoUser => 406
    case AlreadyActivated => 409
    case ActivationUnknown => 500
  }

  /** UserLoginResultCode. */
  datatype LoginCode = LoginOk | NotActivated | IncorrectLogin | IncorrectPassword | AlreadyLogin
                     | SessionTimeout | LoginUnknown

  function LoginCodeName(c: LoginCode): string
  {
    match c
    case LoginOk => "RESULT_OK"
    case NotActivated => "RESULT_ERROR_NOT_ACTIVATED"
    case IncorrectLogin => "RESULT_ERROR_INCORRECT_LOGIN"
    case IncorrectPassword => "RESULT_ERROR_INCORRECT_PASSWORD"
    case AlreadyLogin => "RESULT_ERROR_ALREADY_LOGIN"
    case SessionTimeout => "RESULT_ERROR_SESSION_TIMEOUT"
    case LoginUnknown => "RESULT_ERROR_UNKNOWN"
  }

  /** The login messages; RESULT_OK has none. */
  function LoginMessage(c: LoginCode): string
  {
    match c
    case LoginOk => ""
    case NotActivated => "Please, activate this account. Open activation email."
    case IncorrectLogin => "Incorrect login."
    case IncorrectPassword => "Incorrect password."
    case AlreadyLogin => "User already in the system."
    case SessionTimeout => "Session timeout. Please, login again."
    case LoginUnknown => "Unknown error. Please contact support."
  }

  /** UserUpdateResultCode. */
  datatype UpdateCode = UpdateOk | UpdateOkPendingImage | ImageUpload | UserNotSpecified | UserNotFound
                      | FieldIsEmpty | IncorrectFieldValue | PasswordsShouldMatch | UpdateUnknown

  function UpdateCodeName(c: UpdateCode): string
  {
    match c
    case UpdateOk => "RESULT_OK"
    case UpdateOkPendingImage => "RESULT_OK_PENDING_IMAGE_UPLOAD"
    case ImageUpload => "RESULT_ERROR_IMAGE_UPLOAD"
    case UserNotSpecified => "RESULT_ERROR_USER_NOT_SPECIFIED"
    case UserNotFound => "RESULT_ERROR_USER_NOT_FOUND"
    case FieldIsEmpty => "RESULT_ERROR_FIELD_IS_EMPTY"
    case IncorrectFieldValue => "RESULT_ERROR_INCORRECT_FIELD_VALUE"
    case PasswordsShouldMatch => "RESULT_ERROR_PASSWORDS_SHOULD_MATCH"
    case UpdateUnknown => "RESULT_UNKNOWN"
  }

  /** The update messages; RESULT_ERROR_USER_NOT_FOUND has none. */
  function UpdateMessage(c: UpdateCode): string
  {
    match c
    case UpdateOk => "Settings update successfully."
    case UpdateOkPendingImage => "Settings update successfully."
    case ImageUpload => "Error upload profile image. Please try again."
    case UserNotSpecified => "User not found. Please, contact support."
    case UserNotFound => ""
    case FieldIsEmpty => "Field is required."
    case IncorrectFieldValue => "Incorrect field value."
    case PasswordsShouldMatch => "Passwords should match."
    case UpdateUnknown => "Unknown error. Please,contact support."
  }

  /** Clients tell the results apart by their names: every enumeration names its constants distinctly. */
  lemma CodeNamesDistinct()
    ensures forall a: RegisterCode, b: RegisterCode :: RegisterCodeName(a) == RegisterCodeName(b) ==> a == b
    ensures forall a: LoginCode, b: LoginCode :: LoginCodeName(a) == LoginCodeName(b) ==> a == b
    ensures forall a: UpdateCode, b: UpdateCode :: UpdateCodeName(a) == UpdateCodeName(b) ==> a == b
  {
  }

  /** UserRole: USER(1) and ADMIN(2). */
  datatype UserRole = USER | ADMIN

  function RoleValue(r: UserRole): int
  {
    match r
    case USER => 1
    case ADMIN => 2
  }

  /** UserRole.getValueByCode: 2 is ADMIN, every other code USER. */
  function RoleByCode(code: int): (r: UserRole)
    ensures r == ADMIN <==> code == 2
  {
    if code == 2 then ADMIN else USER
  }

  /** UserRole.valueOf: the constant named exactly `name`; it throws for any other name. */
  function RoleByName(name: string): (r: Option<UserRole>)
    ensures r == Some(USER) <==> name == "USER"
    ensures r == Some(ADMIN) <==> name == "ADMIN"
  {
    if name == "USER" then Some(USER) else if name == "ADMIN" then Some(ADMIN) else None
  }

  /** A role survives being stored as its code. */
  lemma RoleCodeRoundTrip(r: UserRole)
    ensures RoleByCode(RoleValue(r)) == r
  {
  }

  // ------------------------------------------------------ presentation

  /** The name of a user's default room for sorting: "" when the room is unset, not loaded, or has no name. */
  function RoomName(rooms: seq<Doc>, d: Doc): string
  {
    var key := if Get(d, "default_room") == VNull then "" else Text(d["default_room"]);
    match ById(rooms, key)
    case None => ""
    case Some(room) => if Get(room, "name") == VNull then "" else Text(room["name"])
  }

  /**
   * Users.getFieldPresentation: "" for a null field; the default room by
   * its room's name; `active` as Active/Inactive; `role` as Admin for code 2
   * and User otherwise (also when the value is not a number); `birthDate`
   * formatted when it is a positive timestamp not in the future; gender
   * M/F as Male/Female; any other field as the base presentation.
   */
  function UserPresentation(rooms: seq<Doc>, nowMillis: nat, formatDate: int -> string, it: Item, field: string): string
  {
    if !it.Model? then FieldPresentation(it, field)
    else if Get(it.doc, field) == VNull then ""
    else
      var v := it.doc[field];
      if field == "default_room" then
        (match ById(rooms, Text(v)) case None => "" case Some(room) => Text(Get(room, "name")))
      else if field == "active" then (if v == VBool(true) then "Active" else "Inactive")
      else if field == "role" then (if ParseInt(Text(v)) == Some(2) then "Admin" else "User")
      else if field == "birthDate" then
        (match ParseLong(Text(v))
         case None => ""
         case Some(b) => if b <= 0 || b > nowMillis / 1000 then "" else formatDate(b))
      else if field == "gender" then (if Text(v) == "M" then "Male" else if Text(v) == "F" then "Female" else "")
      else FieldPresentation(it, field)
  }

  /** The presentation the users collection hands to getList and getListJSON. */
  function Presenter(rooms: seq<Doc>, env: Env): (Item, string) -> string
  {
    (it: Item, field: string) => UserPresentation(rooms, env.nowMillis, env.formatDate, it, field)
  }

  /** What the presentations of the enumerated fields mean, for a user document. */
  lemma PresentationMeaning(rooms: seq<Doc>, nowMillis: nat, formatDate: int -> string, d: Doc)
    requires WellTyped(UserSchema, d)
    ensures "active" in d ==> (UserPresentation(rooms, nowMillis, formatDate, Model(d), "active") == "Active" <==> d["active"] == VBool(true))
    ensures "role" in d ==> (UserPresentation(rooms, nowMillis, formatDate, Model(d), "role") == "Admin" <==> RoleByCode(d["role"].i) == ADMIN)
    ensures "role" in d ==> UserPresentation(rooms, nowMillis, formatDate, Model(d), "role") in {"User", "Admin"}
    ensures "gender" in d ==> (UserPresentation(rooms, nowMillis, formatDate, Model(d), "gender") == "Male" <==> d["gender"] == VStr("M"))
    ensures "gender" in d ==> (UserPresentation(rooms, nowMillis, formatDate, Model(d), "gender") == "Female" <==> d["gender"] == VStr("F"))
  {
    if "role" in d {
      ParseIntText(d["role"].i);
    }
  }

  // ----------------------------------------------------------- sort order

  /** Kotlin's compareTo-based three-way result on two strings, with the direction applied. */
  function CompareText(v1: string, v2: string, corrector: int): int
  {
    Signed(StrLess(v2, v1), StrLess(v1, v2), corrector)
  }

  /**
   * Users.getSortOrder: the base order, except that `default_room` compares
   * the rooms' names and `active` and `role` compare their presentations.
   */
  function UserSortOrder(rooms: seq<Doc>, nowMillis: nat, formatDate: int -> string, a: Item, b: Item, sort: (string, string)): (r: Option<int>)
    ensures r.None? <==> !a.Model? || !b.Model?
  {
    var base := SortOrder(UserSchema, a, b, sort);
    if base.None? then None
    else
      var corrector := if sort.1 == "DESC" then -1 else 1;
      if sort.0 == "default_room" then Some(CompareText(RoomName(rooms, a.doc), RoomName(rooms, b.doc), corrector))
      else if sort.0 == "active" || sort.0 == "role" then
        Some(CompareText(UserPresentation(rooms, nowMillis, formatDate, a, sort.0),
                         UserPresentation(rooms, nowMillis, formatDate, b, sort.0), corrector))
      else base
  }

  /** The order the users collection hands to getList. */
  function UserOrder(rooms: seq<Doc>, env: Env): (Item, Item, (string, string)) -> Option<int>
  {
    (a: Item, b: Item, sort: (string, string)) => UserSortOrder(rooms, env.nowMillis, env.formatDate, a, b, sort)
  }

  /** Swapping two users negates their comparison. */
  lemma UserSortOrderAntisymmetric(rooms: seq<Doc>, nowMillis: nat, formatDate: int -> string,
                                   sort: (string, string), d1: Doc, d2: Doc)
    requires WellTyped(UserSchema, d1) && WellTyped(UserSchema, d2)
    ensures UserSortOrder(rooms, nowMillis, formatDate, Model(d1), Model(d2), sort).GetOr(0) ==
      -UserSortOrder(rooms, nowMillis, formatDate, Model(d2), Model(d1), sort).GetOr(0)
  {
    if sort.0 == "default_room" {
      StrLessAsymmetric(RoomName(rooms, d1), RoomName(rooms, d2));
    } else if sort.0 == "active" || sort.0 == "role" {
      StrLessAsymmetric(UserPresentation(rooms, nowMillis, formatDate, Model(d1), sort.0),
                        UserPresentation(rooms, nowMillis, formatDate, Model(d2), sort.0));
    } else {
      SortOrderAntisymmetric(UserSchema, sort, d1, d2);
    }
  }

  /** So the users comparator is a valid order for getList's sort on any list of users. */
  lemma UserComparatorAntisymmetric(rooms: seq<Doc>, env: Env, sort: (string, string), s: seq<Item>)
    requires forall it :: it in s ==> it.Model? && WellTyped(UserSchema, it.doc)
    ensures Antisymmetric(Comparator(UserOrder(rooms, env), sort), s)
  {
    forall a, b | a in s && b in s
      ensures Comparator(UserOrder(rooms, env), sort)(a, b) == -Comparator(UserOrder(rooms, env), sort)(b, a)
    {
      UserSortOrderAntisymmetric(rooms, env.nowMillis, env.formatDate, sort, a.doc, b.doc);
    }
  }

  // ------------------------------------------------------------- register

  /** A parameter counts as given when present and not rendering as "" (a null renders as "null"). */
  predicate Given(params: Obj, key: string)
  {
    key in params && Text(params[key]) != ""
  }

  /** Some stored user holds `value` in `field` (the `find(...).count() > 0` test on the users collection). */
  predicate Taken(stored: map<string, Doc>, field: string, value: string)
  {
    exists k :: k in stored && Get(stored[k], field) == VStr(value)
  }

  /** The refusals of Users.register, in the order it checks them; None when the user can be created. */
  function RegisterRefusal(stored: map<string, Doc>, params: Obj): (r: Option<RegisterCode>)
    ensures r.None? <==> (Given(params, "login") && Given(params, "email") && Given(params, "password") &&
      !Taken(stored, "login", Text(params["login"])) && !Taken(stored, "email", Text(params["email"])))
    ensures r.Some? ==> r.value in {NoLogin, NoEmail, NoPassword, LoginExists, EmailExists}
  {
    if !Given(params, "login") then Some(NoLogin)
    else if !Given(params, "email") then Some(NoEmail)
    else if !Given(params, "password") then Some(NoPassword)
    else if Taken(stored, "login", Text(params["login"])) then Some(LoginExists)
    else if Taken(stored, "email", Text(params["email"])) then Some(EmailExists)
    else None
  }

  /**
   * The user record register creates: a fresh ObjectId, the login and
   * e-mail as given, the BCrypt hash of the password (never the password
   * itself), inactive, with the USER role.
   */
  function NewUser(env: Env, params: Obj, freshId: string): (r: Doc)
    ensures WellTyped(UserSchema, r) && ID in r && r[ID] == VStr(freshId) && IdText(r) == freshId
    ensures Get(r, "active") == VBool(false) && Get(r, "role").VInt? && RoleByCode(Get(r, "role").i) == USER
    ensures Get(r, "password") == VStr(env.hashPassword(Text(Get(params, "password"))))
    ensures Get(r, "login") == VStr(Text(Get(params, "login"))) && Get(r, "email") == VStr(Text(Get(params, "email")))
  {
    var login, email := VStr(Text(Get(params, "login"))), VStr(Text(Get(params, "email")));
    var password := VStr(env.hashPassword(Text(Get(params, "password"))));
    NewUserWellTyped(freshId, login, email, password);
    map[ID := VStr(freshId), "login" := login, "email" := email, "password" := password, "active" := VBool(false), "role" := VInt(1)]
  }

  /** The record register writes is well typed for the users schema, field by field. */
  lemma NewUserWellTyped(freshId: string, login: Value, email: Value, password: Value)
    requires login.VStr? && email.VStr? && password.VStr?
    ensures var d := map[ID := VStr(freshId), "login" := login, "email" := email, "password" := password,
      "active" := VBool(false), "role" := VInt(1)];
      WellTyped(UserSchema, d)
  {
    var d0: Doc := map[];
    WellTypedWrite(UserSchema, d0, ID, VStr(freshId));
    var d1 := d0[ID := VStr(freshId)];
    WellTypedWrite(UserSchema, d1, "login", login);
    var d2 := d1["login" := login];
    WellTypedWrite(UserSchema, d2, "email", email);
    var d3 := d2["email" := email];
    WellTypedWrite(UserSchema, d3, "password", password);
    var d4 := d3["password" := password];
    WellTypedWrite(UserSchema, d4, "active", VBool(false));
    var d5 := d4["active" := VBool(false)];
    WellTypedWrite(UserSchema, d5, "role", VInt(1));
  }

  /** No two stored users share a non-null value of `field`. */
  predicate StoreUnique(stored: map<string, Doc>, field: string)
  {
    forall k1, k2 :: k1 in stored && k2 in stored && k1 != k2 && Get(stored[k1], field) != VNull ==>
      Get(stored[k1], field) != Get(stored[k2], field)
  }

  /** A new record whose field differs from every stored one keeps the field unique. */
  lemma UniqueWithNew(stored: map<string, Doc>, key: string, u: Doc, field: string)
    requires StoreUnique(stored, field) && key !in stored
    requires forall k :: k in stored ==> Get(stored[k], field) != Get(u, field)
    ensures StoreUnique(stored[key := u], field)
  {
  }

  /** Registration keeps logins and e-mails unique in the store, and stores exactly the new record. */
  lemma RegisterKeepsUnique(env: Env, stored: map<string, Doc>, params: Obj, freshId: string)
    requires RegisterRefusal(stored, params).None? && freshId !in stored
    requires StoreUnique(stored, "login") && StoreUnique(stored, "email")
    ensures var r := StoreSave(stored, NewUser(env, params, freshId), freshId);
      StoreUnique(r, "login") && StoreUnique(r, "email") && r[freshId] == NewUser(env, params, freshId)
  {
    hide NewUser;
    var u := NewUser(env, params, freshId);
    var r := StoreSave(stored, u, freshId);
    assert map[ID := VStr(freshId)] + u == u;
    assert r == stored[freshId := u];
    assert forall k :: k in stored ==> Get(stored[k], "login") != Get(u, "login") && Get(stored[k], "email") != Get(u, "email");
    UniqueWithNew(stored, freshId, u, "login");
    UniqueWithNew(stored, freshId, u, "email");
  }

  /** The users after Users.register: the new user added and saved only when the checks pass and the e-mail goes out. */
  predicate RegisterState(env: Env, params: Obj, freshId: string, emailSent: bool, models: seq<Doc>, stored: map<string, Doc>,
                          models': seq<Doc>, stored': map<string, Doc>)
  {
    if RegisterRefusal(stored, params).None? && emailSent then
      models' == models + [NewUser(env, params, freshId)] && stored' == StoreSave(stored, NewUser(env, params, freshId), freshId)
    else models' == models && stored' == stored
  }

  /**
   * Users.register. With every field given and login and e-mail free, the
   * new user is saved and added; when the activation e-mail cannot be sent
   * (`emailSent` false) the user is removed again from the list and the store.
   * The created record is returned in both cases.
   */
  method Register(app: App, env: Env, params: Obj, freshId: string, emailSent: bool)
    returns (code: RegisterCode, user: Option<Doc>)
    requires app.Valid()
    requires freshId !in app.users.stored
    requires forall i :: 0 <= i < |app.users.models| ==> IdText(app.users.models[i]) != freshId
    modifies app.users`models, app.users`stored
    ensures app.Valid()
    ensures var refusal := RegisterRefusal(old(app.users.stored), params);
      refusal.Some? ==> (code == refusal.value && user.None? &&
        app.users.models == old(app.users.models) && app.users.stored == old(app.users.stored))
    ensures RegisterRefusal(old(app.users.stored), params).None? ==>
      user == Some(NewUser(env, params, freshId)) && (code == RegisterOk <==> emailSent)
    ensures RegisterRefusal(old(app.users.stored), params).None? && emailSent ==>
      app.users.models == old(app.users.models) + [NewUser(env, params, freshId)] &&
      app.users.stored == StoreSave(old(app.users.stored), NewUser(env, params, freshId), freshId)
    ensures RegisterRefusal(old(app.users.stored), params).None? && !emailSent ==>
      code == ActivationEmail && app.users.models == old(app.users.models) && app.users.stored == old(app.users.stored)
    ensures RegisterState(env, params, freshId, emailSent, old(app.users.models), old(app.users.stored), app.users.models, app.users.stored)
  {
    hide NewUser, StoreSave;
    if !Given(params, "login") {
      return NoLogin, None;
    } else if !Given(params, "email") {
      return NoEmail, None;
    } else if !Given(params, "password") {
      return NoPassword, None;
    }
    if exists k :: k in app.users.stored && Get(app.users.stored[k], "login") == VStr(Text(params["login"])) {
      return LoginExists, None;
    } else if exists k :: k in app.users.stored && Get(app.users.stored[k], "email") == VStr(Text(params["email"])) {
      return EmailExists, None;
    }
    code, user := CreateUser(app, env, params, freshId, emailSent);
  }

  /** The second half of Users.register: create, save and add the user, and undo it when the e-mail fails. */
  method CreateUser(app: App, env: Env, params: Obj, freshId: string, emailSent: bool)
    returns (code: RegisterCode, user: Option<Doc>)
    requires app.Valid()
    requires freshId !in app.users.stored
    requires forall i :: 0 <= i < |app.users.models| ==> IdText(app.users.models[i]) != freshId
    modifies app.users`models, app.users`stored
    ensures app.Valid()
    ensures user == Some(NewUser(env, params, freshId)) && (code == RegisterOk <==> emailSent)
    ensures emailSent ==>
      app.users.models == old(app.users.models) + [NewUser(env, params, freshId)] &&
      app.users.stored == StoreSave(old(app.users.stored), NewUser(env, params, freshId), freshId)
    ensures !emailSent ==>
      code == ActivationEmail && app.users.models == old(app.users.models) && app.users.stored == old(app.users.stored)
  {
    var created := AddNewUser(app, env, params, freshId);
    user := Some(created);
    if emailSent {
      code := RegisterOk;
    } else {
      Unregister(app, old(app.users.models), old(app.users.stored), created, freshId);
      code := ActivationEmail;
    }
  }

  /** The new user saved to the store and added to the loaded users. */
  method AddNewUser(app: App, env: Env, params: Obj, freshId: string) returns (created: Doc)
    requires app.Valid()
    requires freshId !in app.users.stored
    requires forall i :: 0 <= i < |app.users.models| ==> IdText(app.users.models[i]) != freshId
    modifies app.users`models, app.users`stored
    ensures app.Valid()
    ensures created == NewUser(env, params, freshId)
    ensures app.users.models == old(app.users.models) + [created]
    ensures app.users.stored == StoreSave(old(app.users.stored), created, freshId)
  {
    hide NewUser, StoreSave;
    var model := NewUserModel(env, params, freshId);
    created := model.doc;
    IdAbsent(app.users.models, freshId);
    app.users.Save(model.doc, freshId);
    app.users.AddModel(model, freshId);
  }

  /** Loaded models none of whose `_id` texts is `id` hold no `_id` equal to `id`. */
  lemma IdAbsent(models: seq<Doc>, id: string)
    requires forall i :: 0 <= i < |models| ==> IdText(models[i]) != id
    ensures !exists i :: 0 <= i < |models| && Get(models[i], ID) == VStr(id)
  {
    forall i | 0 <= i < |models| ensures Get(models[i], ID) != VStr(id) {
      assert IdText(models[i]) != id;
    }
  }

  /** Users.remove of the user register has just saved and added: list and store are as before. */
  method Unregister(app: App, ghost models: seq<Doc>, ghost stored: map<string, Doc>, created: Doc, freshId: string)
    requires app.Valid() && freshId !in stored && ID in created && created[ID] == VStr(freshId)
    requires app.users.models == models + [created] && app.users.stored == StoreSave(stored, created, freshId)
    modifies app.users`models, app.users`stored
    ensures app.Valid()
    ensures app.users.models == models && app.users.stored == stored
  {
    ByIdFindsEach(app.users.models, |models|);
    var removed := app.users.Remove(freshId);
    assert app.users.models == models;
    assert app.users.stored.Keys == stored.Keys;
  }

  /** The field assignments of register on a new user model. */
  method NewUserModel(env: Env, params: Obj, freshId: string) returns (model: DBModel)
    ensures fresh(model) && model.Valid() && model.schema == UserSchema
    ensures model.doc == NewUser(env, params, freshId)
  {
    var login, email := VStr(Text(Get(params, "login"))), VStr(Text(Get(params, "email")));
    var password := VStr(env.hashPassword(Text(Get(params, "password"))));
    model := new DBModel(UserSchema);
    UserFieldsConform();
    var ok := model.Set(ID, VId(freshId));
    assert model.doc == map[ID := VStr(freshId)];
    SetConforming(UserSchema, model.doc, "login", login);
    ok := model.Set("login", login);
    SetConforming(UserSchema, model.doc, "email", email);
    ok := model.Set("email", email);
    SetConforming(UserSchema, model.doc, "password", password);
    ok := model.Set("password", password);
    SetConforming(UserSchema, model.doc, "active", VBool(false));
    ok := model.Set("active", VBool(false));
    SetConforming(UserSchema, model.doc, "role", VInt(1));
    ok := model.Set("role", VInt(1));
  }

  /** The types of the fields register writes. */
  lemma UserFieldsConform()
    ensures ID in UserSchema && UserSchema[ID] == StringType
    ensures "login" in UserSchema && UserSchema["login"] == StringType
    ensures "email" in UserSchema && UserSchema["email"] == StringType
    ensures "password" in UserSchema && UserSchema["password"] == StringType
    ensures "active" in UserSchema && UserSchema["active"] == BooleanType
    ensures "role" in UserSchema && UserSchema["role"] == IntType
  {
  }

  // ------------------------------------------------------------- activate

  /** What Users.activate answers for `userId`. */
  function ActivationCheck(users: seq<Doc>, userId: string): (r: ActivationCode)
    ensures r == ActivationOk <==>
      |userId| > 0 && ById(users, userId).Some? && Get(ById(users, userId).value, "active") != VBool(true)
    ensures r == AlreadyActivated <==>
      |userId| > 0 && ById(users, userId).Some? && Get(ById(users, userId).value, "active") == VBool(true)
  {
    if |userId| == 0 then NoUser
    else
      match ById(users, userId)
      case None => NoUser
      case Some(u) => if Get(u, "active") == VBool(true) then AlreadyActivated else ActivationOk
  }

  /** The user record after activation. */
  function Activated(d: Doc): (r: Doc)
    ensures Get(r, "active") == VBool(true)
    ensures forall k :: k != "active" ==> Get(r, k) == Get(d, k)
  {
    d["active" := VBool(true)]
  }

  /** Activating a loaded user keeps it a well-typed record with the same `_id`. */
  lemma ActivatedWellTyped(app: App, i: nat)
    requires app.Valid() && i < |app.users.models|
    ensures var d := Activated(app.users.models[i]);
      WellTyped(UserSchema, d) && ID in d && d[ID] == app.users.models[i][ID]
  {
    var user := app.users.models[i];
    assert ID in user && WellTyped(UserSchema, user);
    UserFieldsConform();
    WellTypedWrite(UserSchema, user, "active", VBool(true));
  }

  /** Users.activate: an inactive loaded user is switched to active, in memory and in the store. */
  method Activate(app: App, userId: string) returns (code: ActivationCode)
    requires app.Valid()
    modifies app.users`models, app.users`stored
    ensures app.Valid()
    ensures code == ActivationCheck(old(app.users.models), userId)
    ensures code == ActivationOk ==> var i := IndexById(old(app.users.models), userId).value;
      app.users.models == old(app.users.models)[i := Activated(old(app.users.models)[i])] &&
      app.users.stored == StoreSave(old(app.users.stored), Activated(old(app.users.models)[i]), userId)
    ensures code != ActivationOk ==>
      app.users.models == old(app.users.models) && app.users.stored == old(app.users.stored)
  {
    if |userId| == 0 {
      return NoUser;
    }
    var found := IndexById(app.users.models, userId);
    if found.None? {
      return NoUser;
    }
    var i := found.value;
    var user := app.users.models[i];
    var active := false;
    if Get(user, "active") != VNull {
      active := user["active"] == VBool(true);
    }
    if active {
      return AlreadyActivated;
    }
    var d := Activated(user);
    ActivatedWellTyped(app, i);
    app.users.Put(i, d);
    app.users.Save(d, userId);
    code := ActivationOk;
  }

  /** Activation succeeds once: activating the same user again reports AlreadyActivated. */
  lemma ActivateOnce(users: seq<Doc>, userId: string)
    requires Keyed(users) && ActivationCheck(users, userId) == ActivationOk
    ensures var i := IndexById(users, userId).value;
      ActivationCheck(users[i := Activated(users[i])], userId) == AlreadyActivated
  {
    var i := IndexById(users, userId).value;
    var after := users[i := Activated(users[i])];
    assert forall j :: 0 <= j < |after| ==> IdText(after[j]) == IdText(users[j]);
    assert Keyed(after);
    ByIdFindsEach(after, i);
  }

  /** A freshly registered user, added to the loaded users, can be activated by its id. */
  lemma RegisteredUserActivates(env: Env, users: seq<Doc>, params: Obj, freshId: string)
    requires Keyed(users) && freshId != ""
    requires forall i :: 0 <= i < |users| ==> IdText(users[i]) != freshId
    ensures ActivationCheck(users + [NewUser(env, params, freshId)], freshId) == ActivationOk
  {
    var after := users + [NewUser(env, params, freshId)];
    assert Keyed(after);
    ByIdFindsEach(after, |users|);
  }

  // ---------------------------------------------------------------- login

  /** What Users.login's checks decide: a refusal, or the user to log in and whether by session id. */
  datatype LoginStep = Refused(code: LoginCode) | Granted(user: Doc, bySession: bool)

  /**
   * The session test of a login by user id (`password` then holds a
   * session id), as written: the session must exist and have been active
   * within the session timeout. None accepts the login.
   */
  function SessionLoginAsWritten(sessions: seq<Doc>, env: Env, sessionId: string): (r: Result<Option<LoginCode>>)
    ensures r == Ok(None) ==> ById(sessions, sessionId).Some?
    ensures r.Ok? && r.value.Some? ==> r.value.value == SessionTimeout
  {
    match ById(sessions, sessionId)
    case None => Ok(Some(SessionTimeout))
    case Some(s) =>
      match ParseInt(Text(Get(s, "lastActivityTime")))
      case None => Err("NumberFormatException")
      case Some(last) => if WrapInt32(Now(env) - last) > env.sessionTimeout then Ok(Some(SessionTimeout)) else Ok(None)
  }

  /** The same test as intended: the session must also belong to the user logging in. */
  function SessionLogin(sessions: seq<Doc>, env: Env, userId: string, sessionId: string): (r: Result<Option<LoginCode>>)
    ensures r == Ok(None) ==> (ById(sessions, sessionId).Some? &&
      Get(ById(sessions, sessionId).value, "user_id") == VStr(userId))
    ensures r.Ok? && r.value.Some? ==> r.value.value == SessionTimeout
  {
    match ById(sessions, sessionId)
    case None => Ok(Some(SessionTimeout))
    case Some(s) =>
      if Get(s, "user_id") != VStr(userId) then Ok(Some(SessionTimeout))
      else SessionLoginAsWritten(sessions, env, sessionId)
  }

  /** What BCrypt.checkpw throws on a stored password that is not a BCrypt hash. */
  const BadHash := "IllegalArgumentException"

  /** The user a login names: the loaded user with that `_id`, else the first with that login. */
  function Candidate(users: seq<Doc>, login: string): (r: Option<Doc>)
    ensures ById(users, login).Some? ==> r == ById(users, login)
    ensures ById(users, login).None? ==> r == By(users, "login", VStr(login))
  {
    if ById(users, login).Some? then ById(users, login) else By(users, "login", VStr(login))
  }

  /**
   * The checks of Users.login, given the outcome of the session test: a
   * `login` naming a loaded user's `_id` logs in by session id (the
   * session test decides), any other `login` is looked up by login name
   * and must come with the right password; the user must be active.
   * BCrypt.checkpw runs on every user found, also on a login by session
   * (`&&` evaluates it first), and throws when the stored password is not
   * a BCrypt hash.
   */
  function LoginDecision(users: seq<Doc>, env: Env, login: string, password: string,
                         sessionTest: Result<Option<LoginCode>>): (r: Result<LoginStep>)
    ensures r.Err? ==> ((ById(users, login).Some? && sessionTest.Err?) ||
      (Candidate(users, login).Some? && !env.isHash(Text(Get(Candidate(users, login).value, "password"))) && r == Err(BadHash)))
    ensures (|login| > 0 && |password| > 0 && (ById(users, login).Some? ==> sessionTest == Ok(None)) &&
      Candidate(users, login).Some? && !env.isHash(Text(Get(Candidate(users, login).value, "password")))) ==> r == Err(BadHash)
  {
    if |login| == 0 then Ok(Refused(IncorrectLogin))
    else if |password| == 0 then Ok(Refused(IncorrectPassword))
    else
      var byId := ById(users, login);
      if byId.Some? && sessionTest.Err? then Err(sessionTest.exception)
      else if byId.Some? && sessionTest.value.Some? then Ok(Refused(sessionTest.value.value))
      else
        match Candidate(users, login)
        case None => Ok(Refused(IncorrectLogin))
        case Some(u) =>
          if !env.isHash(Text(Get(u, "password"))) then Err(BadHash)
          else if !env.checkPassword(password, Text(Get(u, "password"))) && byId.None? then Ok(Refused(IncorrectPassword))
          else if !env.isActive(u) then Ok(Refused(NotActivated))
          else Ok(Granted(u, byId.Some?))
  }

  /** Users.login's checks as written. */
  function LoginCheckAsWritten(users: seq<Doc>, sessions: seq<Doc>, env: Env, login: string, password: string): Result<LoginStep>
  {
    LoginDecision(users, env, login, password, SessionLoginAsWritten(sessions, env, password))
  }

  /** Users.login's checks with the session test as intended. */
  function LoginCheck(users: seq<Doc>, sessions: seq<Doc>, env: Env, login: string, password: string): Result<LoginStep>
  {
    LoginDecision(users, env, login, password, SessionLogin(sessions, env, login, password))
  }

  /**
   * Only an authenticated, active, loaded user is let in: by login name
   * with a password BCrypt accepts, or by its own `_id` with a live
   * session of its own.
   */
  lemma LoginAuthenticates(users: seq<Doc>, sessions: seq<Doc>, env: Env, login: string, password: string)
    requires LoginCheck(users, sessions, env, login, password).Ok?
    requires LoginCheck(users, sessions, env, login, password).value.Granted?
    ensures var g := LoginCheck(users, sessions, env, login, password).value;
      g.user in users && env.isActive(g.user)
    ensures var g := LoginCheck(users, sessions, env, login, password).value;
      !g.bySession ==> Get(g.user, "login") == VStr(login) && env.checkPassword(password, Text(Get(g.user, "password")))
    ensures var g := LoginCheck(users, sessions, env, login, password).value;
      g.bySession ==> (IdText(g.user) == login &&
        exists s :: s in sessions && IdText(s) == password && Get(s, "user_id") == VStr(login))
  {
    var g := LoginCheck(users, sessions, env, login, password).value;
    var byId := ById(users, login);
    if byId.Some? {
      var s := ById(sessions, password).value;
      assert s in sessions by {
        assert s == sessions[IndexById(sessions, password).value];
      }
      assert byId.value == users[IndexById(users, login).value];
    } else {
      var u := By(users, "login", VStr(login)).value;
      assert u in users by {
        var i :| 0 <= i < |users| && users[i] == u && Get(users[i], "login") == VStr(login) &&
          forall j :: 0 <= j < i ==> Get(users[j], "login") != VStr(login);
      }
    }
  }

  /**
   * The converse of LoginAuthenticates on the password path: a login
   * name that is no user's `_id` finds the first user with that login,
   * and then a wrong password is refused as INCORRECT_PASSWORD, a right
   * password of an inactive user as NOT_ACTIVATED, and a right password
   * of an active user is let in.
   */
  lemma LoginByPassword(users: seq<Doc>, sessions: seq<Doc>, env: Env, login: string, password: string)
    requires |login| > 0 && |password| > 0
    requires ById(users, login).None? && By(users, "login", VStr(login)).Some?
    requires env.isHash(Text(Get(By(users, "login", VStr(login)).value, "password")))
    ensures var u := By(users, "login", VStr(login)).value;
      var c := LoginCheck(users, sessions, env, login, password);
      (!env.checkPassword(password, Text(Get(u, "password"))) ==> c == Ok(Refused(IncorrectPassword))) &&
      (env.checkPassword(password, Text(Get(u, "password"))) && !env.isActive(u) ==> c == Ok(Refused(NotActivated))) &&
      (env.checkPassword(password, Text(Get(u, "password"))) && env.isActive(u) ==> c == Ok(Granted(u, false)))
  {
    assert Candidate(users, login) == By(users, "login", VStr(login));
  }

  /** A login that names neither a loaded user's `_id` nor a loaded user's login is INCORRECT_LOGIN. */
  lemma LoginUnknownUser(users: seq<Doc>, sessions: seq<Doc>, env: Env, login: string, password: string)
    requires |password| > 0
    requires ById(users, login).None? && By(users, "login", VStr(login)).None?
    ensures LoginCheck(users, sessions, env, login, password) == Ok(Refused(IncorrectLogin))
  {
    assert Candidate(users, login).None?;
  }

  /**
   * The converse of LoginAuthenticates on the session path: a login
   * naming a loaded user's `_id`, with a session id that passes the
   * session test, lets an active user in by session whatever BCrypt says
   * of the session id, and refuses an inactive one as NOT_ACTIVATED; a
   * failing session test is the refusal it reports.
   */
  lemma LoginBySession(users: seq<Doc>, sessions: seq<Doc>, env: Env, login: string, password: string)
    requires |login| > 0 && |password| > 0 && ById(users, login).Some?
    requires env.isHash(Text(Get(ById(users, login).value, "password")))
    ensures var u := ById(users, login).value;
      var c := LoginCheck(users, sessions, env, login, password);
      var test := SessionLogin(sessions, env, login, password);
      (test == Ok(None) && env.isActive(u) ==> c == Ok(Granted(u, true))) &&
      (test == Ok(None) && !env.isActive(u) ==> c == Ok(Refused(NotActivated))) &&
      (test.Ok? && test.value.Some? ==> c == Ok(Refused(SessionTimeout)))
  {
    assert Candidate(users, login) == ById(users, login);
  }

  /**
   * After the checks let a user in, Users.login answers RESULT_OK exactly
   * when the double-login test does not refuse, ALREADY_LOGIN exactly
   * when it does; a login by session and a user without a session are
   * never double logins.
   */
  lemma LoginGrantedOutcome(users: seq<Doc>, sessions: seq<Doc>, env: Env, login: string, password: string, u: Doc, bySession: bool)
    requires LoginCheck(users, sessions, env, login, password) == Ok(Granted(u, bySession))
    ensures var out := LoginOutcome(users, sessions, env, login, password);
      (out == Ok((LoginOk, Some(u))) <==> DoubleLogin(sessions, env, u, bySession) == Ok(false)) &&
      (out == Ok((AlreadyLogin, None)) <==> DoubleLogin(sessions, env, u, bySession) == Ok(true)) &&
      (out.Err? <==> DoubleLogin(sessions, env, u, bySession).Err?)
    ensures bySession || By(sessions, "user_id", VStr(IdText(u))).None? ==>
      LoginOutcome(users, sessions, env, login, password) == Ok((LoginOk, Some(u)))
  {
  }

  /**
   * Valid credentials are let in: an active user named by its login, with
   * the password BCrypt accepts and no session of its own, logs in with
   * RESULT_OK.
   */
  lemma LoginWithValidCredentials(users: seq<Doc>, sessions: seq<Doc>, env: Env, login: string, password: string)
    requires |login| > 0 && |password| > 0
    requires ById(users, login).None? && By(users, "login", VStr(login)).Some?
    requires var u := By(users, "login", VStr(login)).value;
      env.isHash(Text(Get(u, "password"))) && env.checkPassword(password, Text(Get(u, "password"))) &&
      env.isActive(u) && By(sessions, "user_id", VStr(IdText(u))).None?
    ensures LoginOutcome(users, sessions, env, login, password) == Ok((LoginOk, Some(By(users, "login", VStr(login)).value)))
  {
    var u := By(users, "login", VStr(login)).value;
    LoginByPassword(users, sessions, env, login, password);
    LoginGrantedOutcome(users, sessions, env, login, password, u, false);
  }

  /**
   * A user added without a password stores none, so its password text is
   * "null", which is no BCrypt hash: logging in as it throws, with any
   * password and also with its own live session.
   */
  lemma LoginWithoutPasswordThrows()
    ensures var env := Env(t => None, e => true, p => p, (p, h) => true, h => h != "null", o => None, o => true, o => o, t => "", c => c, 0, 100);
      var users := [map[ID := VStr("u1"), "login" := VStr("alice")]];
      var sessions := [map[ID := VStr("s1"), "user_id" := VStr("u1"), "lastActivityTime" := VInt(0)]];
      LoginCheck(users, sessions, env, "alice", "secret") == Err(BadHash) &&
      LoginCheck(users, sessions, env, "u1", "s1") == Err(BadHash)
  {
    var env := Env(t => None, e => true, p => p, (p, h) => true, h => h != "null", o => None, o => true, o => o, t => "", c => c, 0, 100);
    var users := [map[ID := VStr("u1"), "login" := VStr("alice")]];
    var sessions := [map[ID := VStr("s1"), "user_id" := VStr("u1"), "lastActivityTime" := VInt(0)]];
    assert IdText(users[0]) == "u1";
    ByIdFindsEach(users, 0);
    assert IdText(sessions[0]) == "s1";
    ByIdFindsEach(sessions, 0);
    assert ById(users, "alice").None?;
    assert Get(users[0], "login") == VStr("alice");
    ParseIntText(0);
    assert Text(VInt(0)) == "0" by {
      assert IntText(0) == "0";
    }
    assert Now(env) == 0;
    assert Text(Get(users[0], "password")) == "null";
  }

  /**
   * The login as written lets a user in by `_id` with any live session,
   * also another user's: "u1" logs in with the session "s2" of "u2". The
   * intended check refuses it.
   */
  lemma LoginWithForeignSession()
    ensures var env := Env(t => None, e => true, p => p, (p, h) => false, h => true, o => None, o => true, o => o, t => "", c => c, 0, 100);
      var users := [map[ID := VStr("u1"), "login" := VStr("alice")]];
      var sessions := [map[ID := VStr("s2"), "user_id" := VStr("u2"), "lastActivityTime" := VInt(0)]];
      LoginCheckAsWritten(users, sessions, env, "u1", "s2") == Ok(Granted(users[0], true)) &&
      LoginCheck(users, sessions, env, "u1", "s2") == Ok(Refused(SessionTimeout))
  {
    var env := Env(t => None, e => true, p => p, (p, h) => false, h => true, o => None, o => true, o => o, t => "", c => c, 0, 100);
    var users := [map[ID := VStr("u1"), "login" := VStr("alice")]];
    var sessions := [map[ID := VStr("s2"), "user_id" := VStr("u2"), "lastActivityTime" := VInt(0)]];
    assert IdText(users[0]) == "u1";
    ByIdFindsEach(users, 0);
    assert IdText(sessions[0]) == "s2";
    ByIdFindsEach(sessions, 0);
    ParseIntText(0);
    assert Text(VInt(0)) == "0" by {
      assert IntText(0) == "0";
    }
    assert Now(env) == 0;
  }

  /**
   * The double-login test of Users.login: a user logging in by password
   * whose session was active less than USER_ACTIVITY_TIMEOUT seconds ago
   * is refused. Err is the exception of a lastActivityTime that is not a number.
   */
  function DoubleLogin(sessions: seq<Doc>, env: Env, user: Doc, bySession: bool): (r: Result<bool>)
    ensures r == Ok(true) ==> !bySession && By(sessions, "user_id", VStr(IdText(user))).Some?
  {
    match By(sessions, "user_id", VStr(IdText(user)))
    case None => Ok(false)
    case Some(s) =>
      if bySession then Ok(false)
      else
        match ParseInt(Text(Get(s, "lastActivityTime")))
        case None => Err("NumberFormatException")
        case Some(last) => Ok(WrapInt32(Now(env) - last) < USER_ACTIVITY_TIMEOUT)
  }

  /**
   * A session as login leaves it: login and activity time are now, and
   * the room becomes the user's default room when that room is loaded.
   */
  function LoggedIn(rooms: seq<Doc>, env: Env, user: Doc, s: Doc): (r: Doc)
    ensures Get(r, "loginTime") == VInt(Now(env)) && Get(r, "lastActivityTime") == VInt(Now(env))
    ensures Get(r, ID) == Get(s, ID) && Get(r, "user_id") == Get(s, "user_id")
    ensures Get(r, "room") == Get(s, "room") || ById(rooms, Text(Get(r, "room"))).Some?
    ensures WellTyped(SessionSchema, s) ==> WellTyped(SessionSchema, r)
  {
    var now := VInt(Now(env));
    var d0 := s["loginTime" := now];
    WellTypedWrite(SessionSchema, s, "loginTime", now);
    var d := d0["lastActivityTime" := now];
    WellTypedWrite(SessionSchema, d0, "lastActivityTime", now);
    if Get(user, "default_room") != VNull && ById(rooms, Text(user["default_room"])).Some? then
      var room := VStr(Text(user["default_room"]));
      WellTypedWrite(SessionSchema, d, "room", room);
      d["room" := room]
    else d
  }

  /**
   * The sessions after a granted login: the user's session, when there is
   * one, is refreshed in place; otherwise a new session of the user is
   * appended under a fresh ObjectId.
   */
  function LoginSessions(rooms: seq<Doc>, env: Env, user: Doc, models: seq<Doc>, freshId: string): (r: seq<Doc>)
    ensures var i := UserSessionIndex(models, VStr(IdText(user)));
      i < |r| && Get(r[i], "user_id") == VStr(IdText(user)) && Get(r[i], "lastActivityTime") == VInt(Now(env)) &&
      |r| == (if i < |models| then |models| else |models| + 1) &&
      forall j :: 0 <= j < |models| && j != i ==> r[j] == models[j]
  {
    var i := UserSessionIndex(models, VStr(IdText(user)));
    if i < |models| then models[i := LoggedIn(rooms, env, user, models[i])]
    else models + [Stamped(LoggedIn(rooms, env, user, map["user_id" := VStr(IdText(user))]), freshId)]
  }

  /** Logging in never gives a user a second session, and keeps the sessions well typed and keyed. */
  lemma LoginKeepsOnePerUser(rooms: seq<Doc>, env: Env, user: Doc, models: seq<Doc>, freshId: string)
    requires OnePerUser(models)
    ensures OnePerUser(LoginSessions(rooms, env, user, models, freshId))
  {
    var uid := VStr(IdText(user));
    var i := UserSessionIndex(models, uid);
    var r := LoginSessions(rooms, env, user, models, freshId);
    forall a, b | 0 <= a < b < |r| && Get(r[a], "user_id") != VNull
      ensures Get(r[a], "user_id") != Get(r[b], "user_id")
    {
      if i < |models| {
        assert Get(r[a], "user_id") == Get(models[a], "user_id");
        assert Get(r[b], "user_id") == Get(models[b], "user_id");
      } else if b == |models| {
        assert Get(models[a], "user_id") != uid;
      }
    }
  }

  /**
   * Users.login (with the intended session test). A refused login and a
   * login that throws change nothing; a granted one refreshes or creates
   * the user's session and saves it.
   */
  method Login(app: App, env: Env, login: string, password: string, freshId: string)
    returns (r: Result<(LoginCode, Option<Doc>)>)
    requires app.Valid()
    requires forall i :: 0 <= i < |app.sessions.models| ==> IdText(app.sessions.models[i]) != freshId
    modifies app.sessions`models, app.sessions`stored
    ensures app.Valid()
    ensures var out := LoginOutcome(app.users.models, old(app.sessions.models), env, login, password);
      r.Err? == out.Err? && (r.Ok? ==> r == out)
    ensures var check := LoginCheck(app.users.models, old(app.sessions.models), env, login, password);
      (check.Err? ==> r.Err?) && (check.Ok? && check.value.Refused? ==> r == Ok((check.value.code, None)))
    ensures var check := LoginCheck(app.users.models, old(app.sessions.models), env, login, password);
      (check.Err? || check.value.Refused?) ==>
        app.sessions.models == old(app.sessions.models) && app.sessions.stored == old(app.sessions.stored)
    ensures var check := LoginCheck(app.users.models, old(app.sessions.models), env, login, password);
      check.Ok? && check.value.Granted? ==>
        OpenedSession(app.users.models, app.rooms.models, env, check.value.user, check.value.bySession, freshId,
        old(app.sessions.models), old(app.sessions.stored), app.sessions.models, app.sessions.stored, r)
    ensures LoginState(app.users.models, app.rooms.models, env, login, password, freshId,
                       old(app.sessions.models), old(app.sessions.stored), app.sessions.models, app.sessions.stored)
  {
    hide LoginCheck, LoginSessions, SaveSession, LoginState;
    ghost var models, stored := app.sessions.models, app.sessions.stored;
    var step := CheckLogin(app.users.models, app.sessions.models, env, login, password);
    if step.Err? {
      r := Err(step.exception);
    } else {
      match step.value
      case Refused(code) =>
        r := Ok((code, None));
      case Granted(u, bySession) =>
        LoginAuthenticates(app.users.models, app.sessions.models, env, login, password);
        r := OpenSession(app, env, u, bySession, freshId);
    }
    LoginStateHolds(app.users.models, app.rooms.models, env, login, password, freshId,
                    models, stored, app.sessions.models, app.sessions.stored, r);
  }

  /**
   * The result Users.login reports: the refusal of the checks, the
   * double-login refusal, or RESULT_OK with the user; Err is the exception
   * of an activity time that is not a number.
   */
  function LoginOutcome(users: seq<Doc>, sessions: seq<Doc>, env: Env, login: string, password: string)
    : (r: Result<(LoginCode, Option<Doc>)>)
    ensures r.Ok? && r.value.0 == LoginOk ==> r.value.1.Some? && r.value.1.value in users
    ensures r.Ok? && r.value.0 != LoginOk ==> r.value.1.None?
    ensures |login| == 0 ==> r == Ok((IncorrectLogin, None))
    ensures |login| > 0 && |password| == 0 ==> r == Ok((IncorrectPassword, None))
  {
    match LoginCheck(users, sessions, env, login, password)
    case Err(e) => Err(e)
    case Ok(Refused(code)) => Ok((code, None))
    case Ok(Granted(u, bySession)) =>
      LoginAuthenticates(users, sessions, env, login, password);
      match DoubleLogin(sessions, env, u, bySession)
      case Err(e) => Err(e)
      case Ok(true) => Ok((AlreadyLogin, None))
      case Ok(false) => Ok((LoginOk, Some(u)))
  }

  /** The checks at the head of Users.login, in the order it makes them. */
  method CheckLogin(users: seq<Doc>, sessions: seq<Doc>, env: Env, login: string, password: string)
    returns (r: Result<LoginStep>)
    ensures r == LoginCheck(users, sessions, env, login, password)
  {
    if |login| == 0 {
      return Ok(Refused(IncorrectLogin));
    } else if |password| == 0 {
      return Ok(Refused(IncorrectPassword));
    }
    var user := ById(users, login);
    var bySession := false;
    if user.Some? {
      var test := SessionTest(sessions, env, login, password);
      if test.Err? {
        return Err(test.exception);
      } else if test.value.Some? {
        return Ok(Refused(test.value.value));
      }
      bySession := true;
    }
    if user.None? {
      user := By(users, "login", VStr(login));
    }
    if user.None? {
      return Ok(Refused(IncorrectLogin));
    }
    var u := user.value;
    if !env.isHash(Text(Get(u, "password"))) {
      return Err(BadHash);
    }
    if !env.checkPassword(password, Text(Get(u, "password"))) && !bySession {
      return Ok(Refused(IncorrectPassword));
    } else if !env.isActive(u) {
      return Ok(Refused(NotActivated));
    }
    return Ok(Granted(u, bySession));
  }

  /** The session test of a login by user id, step by step. */
  method SessionTest(sessions: seq<Doc>, env: Env, userId: string, sessionId: string) returns (r: Result<Option<LoginCode>>)
    ensures r == SessionLogin(sessions, env, userId, sessionId)
  {
    var session := ById(sessions, sessionId);
    if session.None? || Get(session.value, "user_id") != VStr(userId) {
      return Ok(Some(SessionTimeout));
    }
    var last := ParseInt(Text(Get(session.value, "lastActivityTime")));
    if last.None? {
      return Err("NumberFormatException");
    }
    if WrapInt32(Now(env) - last.value) > env.sessionTimeout {
      return Ok(Some(SessionTimeout));
    }
    return Ok(None);
  }

  /**
   * What a granted login does to the sessions: a double login or an
   * unreadable activity time changes nothing; otherwise the user's session
   * is refreshed or created (LoginSessions) and saved (SaveSession).
   */
  predicate OpenedSession(users: seq<Doc>, rooms: seq<Doc>, env: Env, user: Doc, bySession: bool, freshId: string,
                          models: seq<Doc>, stored: map<string, Doc>,
                          models': seq<Doc>, stored': map<string, Doc>, r: Result<(LoginCode, Option<Doc>)>)
  {
    var double := DoubleLogin(models, env, user, bySession);
    (double.Err? ==> r.Err? && models' == models && stored' == stored) &&
    (double == Ok(true) ==> r == Ok((AlreadyLogin, None)) && models' == models && stored' == stored) &&
    (double == Ok(false) ==>
      r == Ok((LoginOk, Some(user))) &&
      models' == LoginSessions(rooms, env, user, models, freshId) &&
      stored' == SaveSession(users, rooms, stored,
                             models'[UserSessionIndex(models, VStr(IdText(user)))], freshId))
  }

  /**
   * The sessions after Users.login: unchanged when the checks throw or
   * refuse, on a double login or when the activity time is unreadable;
   * otherwise the user's session is refreshed or created and saved.
   */
  predicate LoginState(users: seq<Doc>, rooms: seq<Doc>, env: Env, login: string, password: string, freshId: string,
                       models: seq<Doc>, stored: map<string, Doc>, models': seq<Doc>, stored': map<string, Doc>)
  {
    var check := LoginCheck(users, models, env, login, password);
    if check.Err? || check.value.Refused? then models' == models && stored' == stored
    else GrantedState(users, rooms, env, check.value.user, check.value.bySession, freshId, models, stored, models', stored')
  }

  /** The sessions once the checks let the user in: unchanged unless the double-login test passes. */
  predicate GrantedState(users: seq<Doc>, rooms: seq<Doc>, env: Env, user: Doc, bySession: bool, freshId: string,
                         models: seq<Doc>, stored: map<string, Doc>, models': seq<Doc>, stored': map<string, Doc>)
  {
    if DoubleLogin(models, env, user, bySession) != Ok(false) then models' == models && stored' == stored
    else
      models' == LoginSessions(rooms, env, user, models, freshId) &&
      stored' == SaveSession(users, rooms, stored, models'[UserSessionIndex(models, VStr(IdText(user)))], freshId)
  }

  lemma OpenedGranted(users: seq<Doc>, rooms: seq<Doc>, env: Env, user: Doc, bySession: bool, freshId: string,
                      models: seq<Doc>, stored: map<string, Doc>, models': seq<Doc>, stored': map<string, Doc>,
                      r: Result<(LoginCode, Option<Doc>)>)
    requires OpenedSession(users, rooms, env, user, bySession, freshId, models, stored, models', stored', r)
    ensures GrantedState(users, rooms, env, user, bySession, freshId, models, stored, models', stored')
  {
    hide LoginSessions, SaveSession, UserSessionIndex;
    var double := DoubleLogin(models, env, user, bySession);
    assert double.Err? || double == Ok(true) || double == Ok(false);
  }

  /** The state Users.login promises, case by case, is LoginState. */
  lemma LoginStateHolds(users: seq<Doc>, rooms: seq<Doc>, env: Env, login: string, password: string, freshId: string,
                        models: seq<Doc>, stored: map<string, Doc>, models': seq<Doc>, stored': map<string, Doc>,
                        r: Result<(LoginCode, Option<Doc>)>)
    requires var check := LoginCheck(users, models, env, login, password);
      (check.Err? || check.value.Refused? ==> models' == models && stored' == stored) &&
      (check.Ok? && check.value.Granted? ==>
        OpenedSession(users, rooms, env, check.value.user, check.value.bySession, freshId, models, stored, models', stored', r))
    ensures LoginState(users, rooms, env, login, password, freshId, models, stored, models', stored')
  {
    hide LoginCheck, OpenedSession, GrantedState;
    var check := LoginCheck(users, models, env, login, password);
    if check.Ok? && check.value.Granted? {
      OpenedGranted(users, rooms, env, check.value.user, check.value.bySession, freshId, models, stored, models', stored', r);
    }
  }

  lemma OpenedSessionOk(users: seq<Doc>, rooms: seq<Doc>, env: Env, user: Doc, bySession: bool, freshId: string,
                        models: seq<Doc>, stored: map<string, Doc>, models': seq<Doc>, stored': map<string, Doc>)
    requires DoubleLogin(models, env, user, bySession) == Ok(false)
    requires models' == LoginSessions(rooms, env, user, models, freshId)
    requires stored' == SaveSession(users, rooms, stored, models'[UserSessionIndex(models, VStr(IdText(user)))], freshId)
    ensures OpenedSession(users, rooms, env, user, bySession, freshId, models, stored, models', stored',
                          Ok((LoginOk, Some(user))))
  {
  }

  /** The second half of Users.login: the double-login test, then the session refresh or creation and its save. */
  method OpenSession(app: App, env: Env, user: Doc, bySession: bool, freshId: string)
    returns (r: Result<(LoginCode, Option<Doc>)>)
    requires app.Valid() && user in app.users.models
    requires forall i :: 0 <= i < |app.sessions.models| ==> IdText(app.sessions.models[i]) != freshId
    modifies app.sessions`models, app.sessions`stored
    ensures app.Valid()
    ensures OpenedSession(app.users.models, app.rooms.models, env, user, bySession, freshId,
                          old(app.sessions.models), old(app.sessions.stored), app.sessions.models, app.sessions.stored, r)
  {
    var double := DoubleLogin(app.sessions.models, env, user, bySession);
    if double.Err? {
      return Err(double.exception);
    } else if double.value {
      return Ok((AlreadyLogin, None));
    }
    ghost var models, stored := app.sessions.models, app.sessions.stored;
    StartSession(app, env, user, freshId);
    r := Ok((LoginOk, Some(user)));
    OpenedSessionOk(app.users.models, app.rooms.models, env, user, bySession, freshId,
                    models, stored, app.sessions.models, app.sessions.stored);
  }

  /** The user's session refreshed or created, then saved. */
  method StartSession(app: App, env: Env, user: Doc, freshId: string)
    requires app.Valid() && user in app.users.models
    requires forall i :: 0 <= i < |app.sessions.models| ==> IdText(app.sessions.models[i]) != freshId
    modifies app.sessions`models, app.sessions`stored
    ensures app.Valid()
    ensures app.sessions.models == LoginSessions(app.rooms.models, env, user, old(app.sessions.models), freshId)
    ensures app.sessions.stored == SaveSession(app.users.models, app.rooms.models, old(app.sessions.stored),
      app.sessions.models[UserSessionIndex(old(app.sessions.models), VStr(IdText(user)))], freshId)
  {
    hide SaveSession, LoggedIn;
    var uid := VStr(IdText(user));
    ByUserAtIndex(app.sessions.models, uid);
    var i := UserSessionIndex(app.sessions.models, uid);
    ghost var models := app.sessions.models;
    var saved: Doc;
    if i < |app.sessions.models| {
      saved := RefreshSession(app, env, user, i);
      assert saved == app.sessions.models[i];
    } else {
      saved := NewLoginSession(app, env, user, freshId);
      assert saved == app.sessions.models[|models|];
    }
    assert app.sessions.models == LoginSessions(app.rooms.models, env, user, models, freshId);
    SaveDoc(app, saved, freshId);
  }

  /**
   * The user's existing session refreshed by login. The session object is
   * the one the collection holds, so the change shows in the collection,
   * and addModel finds the session there and adds nothing.
   */
  method RefreshSession(app: App, env: Env, user: Doc, i: nat) returns (saved: Doc)
    requires app.Valid() && i < |app.sessions.models|
    modifies app.sessions`models
    ensures app.Valid()
    ensures saved == LoggedIn(app.rooms.models, env, user, old(app.sessions.models)[i])
    ensures app.sessions.models == old(app.sessions.models)[i := saved]
  {
    saved := LoggedIn(app.rooms.models, env, user, app.sessions.models[i]);
    app.sessions.Put(i, saved);
  }

  /** A new session of the user, as login creates it and adds it through Sessions.addModel. */
  method NewLoginSession(app: App, env: Env, user: Doc, freshId: string) returns (saved: Doc)
    requires app.Valid() && user in app.users.models
    requires By(app.sessions.models, "user_id", VStr(IdText(user))).None?
    requires forall i :: 0 <= i < |app.sessions.models| ==> IdText(app.sessions.models[i]) != freshId
    modifies app.sessions`models
    ensures app.Valid()
    ensures saved == Stamped(LoggedIn(app.rooms.models, env, user, map["user_id" := VStr(IdText(user))]), freshId)
    ensures app.sessions.models == old(app.sessions.models) + [saved]
  {
    hide LoggedIn, AddSession, Stamped;
    UserIdText(app, user);
    var model := LoginSessionModel(app.rooms.models, env, user);
    ghost var d := model.doc;
    assert Get(d, ID) == VNull && Get(d, "user_id") == VStr(IdText(user));
    NewSessionNotDuplicate(app, d);
    AddSessionNew(app.sessions.models, d, freshId);
    AddModel(app, model, freshId);
    saved := model.doc;
  }

  /** A session document without `_id` duplicates no loaded session. */
  lemma NewSessionNotDuplicate(app: App, d: Doc)
    requires app.Valid() && Get(d, ID) == VNull
    ensures !Duplicate(app.sessions.models, d)
  {
    forall j | 0 <= j < |app.sessions.models| ensures Get(app.sessions.models[j], ID) != VNull {
      assert ID in app.sessions.models[j];
    }
  }

  /** A loaded user's `_id` is a string. */
  lemma UserIdText(app: App, user: Doc)
    requires app.Valid() && user in app.users.models
    ensures Get(user, ID).VStr?
  {
    var k :| 0 <= k < |app.users.models| && app.users.models[k] == user;
    assert ID in user;
    assert UserSchema[ID] == StringType;
  }

  /** The new session login builds: the user's session with login and activity time now and, when loaded, its default room. */
  method LoginSessionModel(rooms: seq<Doc>, env: Env, user: Doc) returns (model: DBModel)
    requires Get(user, ID).VStr?
    ensures fresh(model) && model.Valid() && model.schema == SessionSchema
    ensures model.doc == LoggedIn(rooms, env, user, map["user_id" := VStr(IdText(user))])
  {
    var session := NewSession(user);
    model := session.value.model;
    var now := Now(env);
    var ok := model.Set("loginTime", VInt(now));
    ok := model.Set("lastActivityTime", VInt(now));
    if Get(user, "default_room") != VNull && ById(rooms, Text(user["default_room"])).Some? {
      ok := model.Set("room", VStr(Text(user["default_room"])));
    }
  }

  // ----------------------------------------------------------- updateUser

  /** The fields a profile update may write. */
  const UpdatableFields: set<string> := {"password", "first_name", "last_name", "gender", "birthDate", "default_room", "role"}

  /**
   * A profile update under way: still going with the user record as far
   * as it got, or stopped at a field with a result code. Fields written
   * before the stop stay written on the in-memory model.
   */
  datatype Updating = Going(doc: Doc) | Stopped(code: UpdateCode, field: string, doc: Doc)

  /** The step's outcome: it writes only `field`, keeps the record well typed, and a stop changes nothing. */
  ghost predicate StepWrites(params: Obj, d: Doc, r: Updating, field: string)
  {
    (forall k :: k != field ==> Get(r.doc, k) == Get(d, k)) &&
    (WellTyped(UserSchema, d) ==> WellTyped(UserSchema, r.doc)) &&
    (field !in params ==> r == Going(d)) &&
    (r.Stopped? ==> r.doc == d && r.field == field && r.code in {FieldIsEmpty, IncorrectFieldValue, PasswordsShouldMatch})
  }

  /** A step that writes a value of the field's type. */
  lemma GoingWrites(params: Obj, d: Doc, field: string, v: Value)
    requires field in params && field in UserSchema && Conforms(UserSchema[field], v)
    ensures StepWrites(params, d, Going(d[field := v]), field)
  {
    WellTypedWrite(UserSchema, d, field, v);
  }

  /** A step that stops with one of its codes. */
  lemma StoppedWrites(params: Obj, d: Doc, code: UpdateCode, field: string)
    requires field in params && code in {FieldIsEmpty, IncorrectFieldValue, PasswordsShouldMatch}
    ensures StepWrites(params, d, Stopped(code, field, d), field)
  {
  }

  /** A given password must be non-empty and equal to `confirm_password`; its BCrypt hash is stored. */
  function PasswordStep(env: Env, params: Obj, d: Doc): (r: Updating)
    ensures StepWrites(params, d, r, "password")
    ensures r.Going? && "password" in params ==>
      Text(params["password"]) != "" && Get(params, "confirm_password") == params["password"] &&
      Get(r.doc, "password") == VStr(env.hashPassword(Text(params["password"])))
  {
    if "password" !in params then Going(d)
    else if Text(params["password"]) == "" then StoppedWrites(params, d, FieldIsEmpty, "password"); Stopped(FieldIsEmpty, "password", d)
    else if "confirm_password" !in params || params["confirm_password"] != params["password"] then
      StoppedWrites(params, d, PasswordsShouldMatch, "password");
      Stopped(PasswordsShouldMatch, "password", d)
    else
      UserFieldsConform();
      GoingWrites(params, d, "password", VStr(env.hashPassword(Text(params["password"]))));
      Going(d["password" := VStr(env.hashPassword(Text(params["password"])))])
  }

  /** The names, the gender and the default room are string fields of the users schema. */
  lemma NameFieldTypes(field: string)
    requires field in {"first_name", "last_name", "gender", "default_room"}
    ensures field in UserSchema && UserSchema[field] == StringType
  {
  }

  /** A given first or last name must be non-empty; it is stored trimmed. */
  function NameStep(params: Obj, field: string, d: Doc): (r: Updating)
    requires field in {"first_name", "last_name"}
    ensures StepWrites(params, d, r, field)
    ensures r.Going? && field in params ==> Text(params[field]) != "" && Get(r.doc, field) == VStr(Trim(Text(params[field])))
  {
    if field !in params then Going(d)
    else if Text(params[field]) == "" then StoppedWrites(params, d, FieldIsEmpty, field); Stopped(FieldIsEmpty, field, d)
    else
      NameFieldTypes(field);
      GoingWrites(params, d, field, VStr(Trim(Text(params[field]))));
      Going(d[field := VStr(Trim(Text(params[field])))])
  }

  /** A given gender, trimmed, must be M or F. */
  function GenderStep(params: Obj, d: Doc): (r: Updating)
    ensures StepWrites(params, d, r, "gender")
    ensures r.Going? && "gender" in params ==> Get(r.doc, "gender") in {VStr("M"), VStr("F")}
  {
    if "gender" !in params then Going(d)
    else
      var g := Trim(Text(params["gender"]));
      if g == "" then StoppedWrites(params, d, FieldIsEmpty, "gender"); Stopped(FieldIsEmpty, "gender", d)
      else if g != "M" && g != "F" then
        StoppedWrites(params, d, IncorrectFieldValue, "gender");
        Stopped(IncorrectFieldValue, "gender", d)
      else
        NameFieldTypes("gender");
        GoingWrites(params, d, "gender", VStr(g));
        Going(d["gender" := VStr(g)])
  }

  /**
   * A given birth date, trimmed, must be a non-zero Int timestamp in
   * seconds not after now; text that is not a number counts as 0.
   */
  function BirthDateStep(params: Obj, nowMillis: nat, d: Doc): (r: Updating)
    ensures StepWrites(params, d, r, "birthDate")
    ensures r.Going? && "birthDate" in params ==>
      Get(r.doc, "birthDate").VInt? && Get(r.doc, "birthDate").i != 0 && Get(r.doc, "birthDate").i * 1000 <= nowMillis &&
      ParseInt(Trim(Text(params["birthDate"]))) == Some(Get(r.doc, "birthDate").i)
  {
    if "birthDate" !in params then Going(d)
    else
      var text := Trim(Text(params["birthDate"]));
      if text == "" then StoppedWrites(params, d, FieldIsEmpty, "birthDate"); Stopped(FieldIsEmpty, "birthDate", d)
      else
        match BirthSeconds(text, nowMillis)
        case None =>
          StoppedWrites(params, d, IncorrectFieldValue, "birthDate");
          Stopped(IncorrectFieldValue, "birthDate", d)
        case Some(b) =>
          GoingWrites(params, d, "birthDate", VInt(b));
          Going(d["birthDate" := VInt(b)])
  }

  /** The birth date in the text: a non-zero Int not after now; text that is not an Int reads as 0. */
  function BirthSeconds(text: string, nowMillis: nat): (r: Option<int>)
    ensures r.Some? <==> ParseInt(text).Some? && ParseInt(text).value != 0 && ParseInt(text).value * 1000 <= nowMillis
    ensures r.Some? ==> IsInt32(r.value) && ParseInt(text) == Some(r.value)
  {
    var b := ParseInt(text).GetOr(0);
    if b == 0 || b * 1000 > nowMillis then None else Some(b)
  }

  /** A given default room, trimmed, must be the `_id` of a loaded room. */
  function RoomStep(rooms: seq<Doc>, params: Obj, d: Doc): (r: Updating)
    ensures StepWrites(params, d, r, "default_room")
    ensures r.Going? && "default_room" in params ==>
      Get(r.doc, "default_room").VStr? && ById(rooms, Text(Get(r.doc, "default_room"))).Some?
  {
    if "default_room" !in params then Going(d)
    else
      var id := Trim(Text(params["default_room"]));
      if id == "" then StoppedWrites(params, d, FieldIsEmpty, "default_room"); Stopped(FieldIsEmpty, "default_room", d)
      else if ById(rooms, id).None? then
        StoppedWrites(params, d, IncorrectFieldValue, "default_room");
        Stopped(IncorrectFieldValue, "default_room", d)
      else
        NameFieldTypes("default_room");
        GoingWrites(params, d, "default_room", VStr(id));
        Going(d["default_room" := VStr(id)])
  }

  /** A given role, trimmed, must name a UserRole; its code is stored. */
  function RoleStep(params: Obj, d: Doc): (r: Updating)
    ensures StepWrites(params, d, r, "role")
    ensures r.Going? && "role" in params ==>
      RoleByName(Trim(Text(params["role"]))).Some? &&
      Get(r.doc, "role") == VInt(RoleValue(RoleByName(Trim(Text(params["role"]))).value))
  {
    if "role" !in params then Going(d)
    else
      var name := Trim(Text(params["role"]));
      if name == "" then StoppedWrites(params, d, FieldIsEmpty, "role"); Stopped(FieldIsEmpty, "role", d)
      else
        match RoleByName(name)
        case None => StoppedWrites(params, d, IncorrectFieldValue, "role"); Stopped(IncorrectFieldValue, "role", d)
        case Some(role) =>
          UserFieldsConform();
          GoingWrites(params, d, "role", VInt(RoleValue(role)));
          Going(d["role" := VInt(RoleValue(role))])
  }

  /** The validations and writes of Users.updateUser on the user record, in the source's order; the first failure stops it. */
  function UpdateSteps(rooms: seq<Doc>, env: Env, params: Obj, d: Doc): Updating
  {
    var u1 := PasswordStep(env, params, d);
    if u1.Stopped? then u1 else
    var u2 := NameStep(params, "first_name", u1.doc);
    if u2.Stopped? then u2 else
    var u3 := NameStep(params, "last_name", u2.doc);
    if u3.Stopped? then u3 else
    var u4 := GenderStep(params, u3.doc);
    if u4.Stopped? then u4 else
    var u5 := BirthDateStep(params, env.nowMillis, u4.doc);
    if u5.Stopped? then u5 else
    var u6 := RoomStep(rooms, params, u5.doc);
    if u6.Stopped? then u6 else
    RoleStep(params, u6.doc)
  }

  /**
   * An update writes only the updatable fields (never `_id`, login,
   * e-mail or activation) and keeps the record well typed; it stops only
   * at a field the request gives, with an error code.
   */
  lemma UpdateFrame(rooms: seq<Doc>, env: Env, params: Obj, d: Doc)
    ensures var r := UpdateSteps(rooms, env, params, d);
      forall k :: k !in UpdatableFields ==> Get(r.doc, k) == Get(d, k)
    ensures WellTyped(UserSchema, d) ==> WellTyped(UserSchema, UpdateSteps(rooms, env, params, d).doc)
    ensures var r := UpdateSteps(rooms, env, params, d);
      r.Stopped? ==> r.field in UpdatableFields && r.field in params && r.code in {FieldIsEmpty, IncorrectFieldValue, PasswordsShouldMatch}
  {
    forall k | k !in UpdatableFields
      ensures Get(UpdateSteps(rooms, env, params, d).doc, k) == Get(d, k)
    {
      UpdateKeeps(rooms, env, params, d, k);
    }
    UpdateWellTyped(rooms, env, params, d);
    UpdateStops(rooms, env, params, d);
  }

  /** A field no step writes keeps its value. */
  lemma UpdateKeeps(rooms: seq<Doc>, env: Env, params: Obj, d: Doc, k: string)
    requires k !in UpdatableFields
    ensures Get(UpdateSteps(rooms, env, params, d).doc, k) == Get(d, k)
  {
    hide PasswordStep, NameStep, GenderStep, BirthDateStep, RoomStep, RoleStep;
    var u1 := PasswordStep(env, params, d);
    var u2 := NameStep(params, "first_name", u1.doc);
    var u3 := NameStep(params, "last_name", u2.doc);
    var u4 := GenderStep(params, u3.doc);
    var u5 := BirthDateStep(params, env.nowMillis, u4.doc);
    var u6 := RoomStep(rooms, params, u5.doc);
    var u7 := RoleStep(params, u6.doc);
    assert Get(u7.doc, k) == Get(u6.doc, k) == Get(u5.doc, k) == Get(u4.doc, k);
    assert Get(u4.doc, k) == Get(u3.doc, k) == Get(u2.doc, k) == Get(u1.doc, k) == Get(d, k);
  }

  /** The update keeps the record well typed. */
  lemma UpdateWellTyped(rooms: seq<Doc>, env: Env, params: Obj, d: Doc)
    ensures WellTyped(UserSchema, d) ==> WellTyped(UserSchema, UpdateSteps(rooms, env, params, d).doc)
  {
    hide PasswordStep, NameStep, GenderStep, BirthDateStep, RoomStep, RoleStep;
    var u1 := PasswordStep(env, params, d);
    var u2 := NameStep(params, "first_name", u1.doc);
    var u3 := NameStep(params, "last_name", u2.doc);
    var u4 := GenderStep(params, u3.doc);
    var u5 := BirthDateStep(params, env.nowMillis, u4.doc);
    var u6 := RoomStep(rooms, params, u5.doc);
    var u7 := RoleStep(params, u6.doc);
  }

  /** The update stops only at a field the request gives, with an error code. */
  lemma UpdateStops(rooms: seq<Doc>, env: Env, params: Obj, d: Doc)
    ensures var r := UpdateSteps(rooms, env, params, d);
      r.Stopped? ==> r.field in UpdatableFields && r.field in params && r.code in {FieldIsEmpty, IncorrectFieldValue, PasswordsShouldMatch}
  {
    hide PasswordStep, NameStep, GenderStep, BirthDateStep, RoomStep, RoleStep;
    var u1 := PasswordStep(env, params, d);
    var u2 := NameStep(params, "first_name", u1.doc);
    var u3 := NameStep(params, "last_name", u2.doc);
    var u4 := GenderStep(params, u3.doc);
    var u5 := BirthDateStep(params, env.nowMillis, u4.doc);
    var u6 := RoomStep(rooms, params, u5.doc);
    var u7 := RoleStep(params, u6.doc);
  }

  /** A completed update holds the hash of a given, confirmed password. */
  lemma UpdateStoresPassword(rooms: seq<Doc>, env: Env, params: Obj, d: Doc)
    requires UpdateSteps(rooms, env, params, d).Going?
    ensures var r := UpdateSteps(rooms, env, params, d).doc;
      "password" in params ==>
        Get(params, "confirm_password") == params["password"] &&
        Get(r, "password") == VStr(env.hashPassword(Text(params["password"])))
  {
    hide PasswordStep, NameStep, GenderStep, BirthDateStep, RoomStep, RoleStep;
    var u1 := PasswordStep(env, params, d);
    var u2 := NameStep(params, "first_name", u1.doc);
    var u3 := NameStep(params, "last_name", u2.doc);
    var u4 := GenderStep(params, u3.doc);
    var u5 := BirthDateStep(params, env.nowMillis, u4.doc);
    var u6 := RoomStep(rooms, params, u5.doc);
    var u7 := RoleStep(params, u6.doc);
    var r := u7.doc;
    assert Get(r, "password") == Get(u1.doc, "password");
  }

  /** A completed update holds the given names trimmed, and a valid given gender and birth date. */
  lemma UpdateStoresProfile(rooms: seq<Doc>, env: Env, params: Obj, d: Doc)
    requires UpdateSteps(rooms, env, params, d).Going?
    ensures var r := UpdateSteps(rooms, env, params, d).doc;
      ("first_name" in params ==> Get(r, "first_name") == VStr(Trim(Text(params["first_name"])))) &&
      ("last_name" in params ==> Get(r, "last_name") == VStr(Trim(Text(params["last_name"])))) &&
      ("gender" in params ==> Get(r, "gender") in {VStr("M"), VStr("F")})
    ensures var r := UpdateSteps(rooms, env, params, d).doc;
      "birthDate" in params ==>
        Get(r, "birthDate").VInt? && Get(r, "birthDate").i != 0 && Get(r, "birthDate").i * 1000 <= env.nowMillis
  {
    UpdateStoresNames(rooms, env, params, d);
    UpdateStoresGender(rooms, env, params, d);
    UpdateStoresBirthDate(rooms, env, params, d);
  }

  lemma UpdateStoresNames(rooms: seq<Doc>, env: Env, params: Obj, d: Doc)
    requires UpdateSteps(rooms, env, params, d).Going?
    ensures var r := UpdateSteps(rooms, env, params, d).doc;
      ("first_name" in params ==> Get(r, "first_name") == VStr(Trim(Text(params["first_name"])))) &&
      ("last_name" in params ==> Get(r, "last_name") == VStr(Trim(Text(params["last_name"]))))
  {
    hide PasswordStep, NameStep, GenderStep, BirthDateStep, RoomStep, RoleStep;
    var u1 := PasswordStep(env, params, d);
    var u2 := NameStep(params, "first_name", u1.doc);
    var u3 := NameStep(params, "last_name", u2.doc);
    var u4 := GenderStep(params, u3.doc);
    var u5 := BirthDateStep(params, env.nowMillis, u4.doc);
    var u6 := RoomStep(rooms, params, u5.doc);
    var u7 := RoleStep(params, u6.doc);
    var r := u7.doc;
    assert Get(r, "first_name") == Get(u2.doc, "first_name");
    assert Get(r, "last_name") == Get(u3.doc, "last_name");
  }

  lemma UpdateStoresGender(rooms: seq<Doc>, env: Env, params: Obj, d: Doc)
    requires UpdateSteps(rooms, env, params, d).Going?
    ensures "gender" in params ==> Get(UpdateSteps(rooms, env, params, d).doc, "gender") in {VStr("M"), VStr("F")}
  {
    hide PasswordStep, NameStep, GenderStep, BirthDateStep, RoomStep, RoleStep;
    var u1 := PasswordStep(env, params, d);
    var u2 := NameStep(params, "first_name", u1.doc);
    var u3 := NameStep(params, "last_name", u2.doc);
    var u4 := GenderStep(params, u3.doc);
    var u5 := BirthDateStep(params, env.nowMillis, u4.doc);
    var u6 := RoomStep(rooms, params, u5.doc);
    var u7 := RoleStep(params, u6.doc);
    var r := u7.doc;
    assert Get(r, "gender") == Get(u4.doc, "gender");
  }

  lemma UpdateStoresBirthDate(rooms: seq<Doc>, env: Env, params: Obj, d: Doc)
    requires UpdateSteps(rooms, env, params, d).Going?
    ensures var r := UpdateSteps(rooms, env, params, d).doc;
      "birthDate" in params ==>
        Get(r, "birthDate").VInt? && Get(r, "birthDate").i != 0 && Get(r, "birthDate").i * 1000 <= env.nowMillis
  {
    hide PasswordStep, NameStep, GenderStep, BirthDateStep, RoomStep, RoleStep;
    var u1 := PasswordStep(env, params, d);
    var u2 := NameStep(params, "first_name", u1.doc);
    var u3 := NameStep(params, "last_name", u2.doc);
    var u4 := GenderStep(params, u3.doc);
    var u5 := BirthDateStep(params, env.nowMillis, u4.doc);
    var u6 := RoomStep(rooms, params, u5.doc);
    var u7 := RoleStep(params, u6.doc);
    var r := u7.doc;
    assert Get(r, "birthDate") == Get(u5.doc, "birthDate");
  }

  /** A completed update holds a loaded room as a given default room and a valid code as a given role. */
  lemma UpdateStoresRoomAndRole(rooms: seq<Doc>, env: Env, params: Obj, d: Doc)
    requires UpdateSteps(rooms, env, params, d).Going?
    ensures var r := UpdateSteps(rooms, env, params, d).doc;
      ("default_room" in params ==> ById(rooms, Text(Get(r, "default_room"))).Some?) &&
      ("role" in params ==> Get(r, "role") in {VInt(1), VInt(2)})
  {
    UpdateStoresRoom(rooms, env, params, d);
    UpdateStoresRole(rooms, env, params, d);
  }

  lemma UpdateStoresRoom(rooms: seq<Doc>, env: Env, params: Obj, d: Doc)
    requires UpdateSteps(rooms, env, params, d).Going?
    ensures "default_room" in params ==> ById(rooms, Text(Get(UpdateSteps(rooms, env, params, d).doc, "default_room"))).Some?
  {
    hide PasswordStep, NameStep, GenderStep, BirthDateStep, RoomStep, RoleStep;
    var u1 := PasswordStep(env, params, d);
    var u2 := NameStep(params, "first_name", u1.doc);
    var u3 := NameStep(params, "last_name", u2.doc);
    var u4 := GenderStep(params, u3.doc);
    var u5 := BirthDateStep(params, env.nowMillis, u4.doc);
    var u6 := RoomStep(rooms, params, u5.doc);
    var u7 := RoleStep(params, u6.doc);
    assert Get(u7.doc, "default_room") == Get(u6.doc, "default_room");
  }

  lemma UpdateStoresRole(rooms: seq<Doc>, env: Env, params: Obj, d: Doc)
    requires UpdateSteps(rooms, env, params, d).Going?
    ensures "role" in params ==> Get(UpdateSteps(rooms, env, params, d).doc, "role") in {VInt(1), VInt(2)}
  {
    hide Trim;
    hide PasswordStep, NameStep, GenderStep, BirthDateStep, RoomStep, RoleStep;
    var u1 := PasswordStep(env, params, d);
    var u2 := NameStep(params, "first_name", u1.doc);
    var u3 := NameStep(params, "last_name", u2.doc);
    var u4 := GenderStep(params, u3.doc);
    var u5 := BirthDateStep(params, env.nowMillis, u4.doc);
    var u6 := RoomStep(rooms, params, u5.doc);
    var u7 := RoleStep(params, u6.doc);
    if "role" in params {
      var role := RoleByName(Trim(Text(params["role"]))).value;
      assert Get(u7.doc, "role") == VInt(RoleValue(role));
    }
  }

  /** An update leaves every updatable field the request does not give as it was. */
  lemma UpdateLeavesUngiven(rooms: seq<Doc>, env: Env, params: Obj, d: Doc)
    ensures var r := UpdateSteps(rooms, env, params, d).doc;
      forall k :: k in UpdatableFields && k !in params ==> Get(r, k) == Get(d, k)
  {
    hide PasswordStep, NameStep, GenderStep, BirthDateStep, RoomStep, RoleStep;
    var u1 := PasswordStep(env, params, d);
    var u2 := NameStep(params, "first_name", u1.doc);
    var u3 := NameStep(params, "last_name", u2.doc);
    var u4 := GenderStep(params, u3.doc);
    var u5 := BirthDateStep(params, env.nowMillis, u4.doc);
    var u6 := RoomStep(rooms, params, u5.doc);
    var u7 := RoleStep(params, u6.doc);
    var r := UpdateSteps(rooms, env, params, d);
    assert r in {u1, u2, u3, u4, u5, u6, u7};
    forall k | k in UpdatableFields && k !in params ensures Get(r.doc, k) == Get(d, k) {
      assert Get(u1.doc, k) == Get(d, k);
      assert Get(u2.doc, k) == Get(u1.doc, k);
      assert Get(u3.doc, k) == Get(u2.doc, k);
      assert Get(u4.doc, k) == Get(u3.doc, k);
      assert Get(u5.doc, k) == Get(u4.doc, k);
      assert Get(u6.doc, k) == Get(u5.doc, k);
      assert Get(u7.doc, k) == Get(u6.doc, k);
    }
  }

  /** The result code and message Users.updateUser reports for `params`. */
  function UpdateResult(users: seq<Doc>, rooms: seq<Doc>, env: Env, params: Obj): (r: (UpdateCode, string))
    ensures "user_id" !in params ==> r == (UserNotSpecified, "")
    ensures "user_id" in params && ById(users, Text(params["user_id"])).None? ==> r == (UserNotFound, "")
    ensures r.0 == UpdateOk ==> r.1 == "" && "user_id" in params && ById(users, Text(params["user_id"])).Some?
  {
    if "user_id" !in params then (UserNotSpecified, "")
    else match IndexById(users, Text(params["user_id"]))
      case None => (UserNotFound, "")
      case Some(i) =>
        UpdateFrame(rooms, env, params, users[i]);
        var out := UpdateSteps(rooms, env, params, users[i]);
        if out.Going? then (UpdateOk, "") else (out.code, out.field)
  }

  /**
   * The users after Users.updateUser: unchanged without `user_id` or when
   * no loaded user has it; otherwise the found user replaced by what the
   * update steps made of it, and saved only when every step passed.
   */
  predicate UpdateState(rooms: seq<Doc>, env: Env, params: Obj, models: seq<Doc>, stored: map<string, Doc>,
                        models': seq<Doc>, stored': map<string, Doc>)
  {
    if "user_id" !in params || IndexById(models, Text(params["user_id"])).None? then models' == models && stored' == stored
    else
      var i := IndexById(models, Text(params["user_id"])).value;
      var out := UpdateSteps(rooms, env, params, models[i]);
      models' == models[i := out.doc] &&
      stored' == if out.Going? then StoreSave(stored, out.doc, Text(params["user_id"])) else stored
  }

  /**
   * Users.updateUser. The user named by `user_id` goes through the update
   * steps; the fields written before a failing step stay written on the
   * in-memory model, and only a complete update is saved. `message` is the
   * field a failure stopped at.
   */
  method UpdateUser(app: App, env: Env, params: Obj) returns (code: UpdateCode, message: string)
    requires app.Valid()
    modifies app.users`models, app.users`stored
    ensures app.Valid()
    ensures (code, message) == UpdateResult(old(app.users.models), app.rooms.models, env, params)
    ensures "user_id" !in params ==> (code == UserNotSpecified && message == "" &&
      app.users.models == old(app.users.models) && app.users.stored == old(app.users.stored))
    ensures "user_id" in params && IndexById(old(app.users.models), Text(params["user_id"])).None? ==>
      code == UserNotFound && message == "" &&
      app.users.models == old(app.users.models) && app.users.stored == old(app.users.stored)
    ensures "user_id" in params && IndexById(old(app.users.models), Text(params["user_id"])).Some? ==>
      var i := IndexById(old(app.users.models), Text(params["user_id"])).value;
      var out := UpdateSteps(app.rooms.models, env, params, old(app.users.models)[i]);
      app.users.models == old(app.users.models)[i := out.doc] &&
      (out.Going? ==> (code == UpdateOk && message == "" &&
        app.users.stored == StoreSave(old(app.users.stored), out.doc, Text(params["user_id"])))) &&
      (out.Stopped? ==> code == out.code && message == out.field && app.users.stored == old(app.users.stored))
    ensures UpdateState(app.rooms.models, env, params, old(app.users.models), old(app.users.stored), app.users.models, app.users.stored)
  {
    if "user_id" !in params {
      return UserNotSpecified, "";
    }
    var found := IndexById(app.users.models, Text(params["user_id"]));
    if found.None? {
      return UserNotFound, "";
    }
    code, message := UpdateFound(app, env, params, found.value);
  }

  /** Users.updateUser once the user named by `user_id` is found at index `i`. */
  method UpdateFound(app: App, env: Env, params: Obj, i: nat) returns (code: UpdateCode, message: string)
    requires app.Valid() && "user_id" in params
    requires IndexById(app.users.models, Text(params["user_id"])) == Some(i)
    modifies app.users`models, app.users`stored
    ensures app.Valid()
    ensures var out := UpdateSteps(app.rooms.models, env, params, old(app.users.models)[i]);
      app.users.models == old(app.users.models)[i := out.doc] &&
      (out.Going? ==> (code == UpdateOk && message == "" &&
        app.users.stored == StoreSave(old(app.users.stored), out.doc, Text(params["user_id"])))) &&
      (out.Stopped? ==> code == out.code && message == out.field && app.users.stored == old(app.users.stored))
  {
    var user := app.users.models[i];
    var out := UpdateSteps(app.rooms.models, env, params, user);
    UpdateReplaces(app, env, params, i);
    app.users.Put(i, out.doc);
    if out.Stopped? {
      return out.code, out.field;
    }
    // The model is already in the collection, so the addModel after the save adds nothing.
    app.users.Save(out.doc, Text(params["user_id"]));
    return UpdateOk, "";
  }

  /** The updated record may replace the loaded one: it is well typed and keeps its `_id`. */
  lemma UpdateReplaces(app: App, env: Env, params: Obj, i: nat)
    requires app.Valid() && i < |app.users.models|
    ensures var d := app.users.models[i];
      var out := UpdateSteps(app.rooms.models, env, params, d).doc;
      WellTyped(UserSchema, out) && ID in out && out[ID] == d[ID]
  {
    var d := app.users.models[i];
    UpdateFrame(app.rooms.models, env, params, d);
    assert ID !in UpdatableFields && ID in d;
  }

  // ---------------------------------------------------------- removeUsers

  /** The models not among `gone`. */
  function Outside(gone: seq<Doc>): Doc -> bool
  {
    d => d !in gone
  }

  /** The `_id` texts of `docs`. */
  function IdsOf(docs: seq<Doc>): set<string>
  {
    set d | d in docs :: IdText(d)
  }

  /** The session belongs to one of `owners`. */
  predicate OwnedBy(d: Doc, owners: set<string>)
  {
    Get(d, "user_id").VStr? && Get(d, "user_id").s in owners
  }

  function NotOwnedBy(owners: set<string>): Doc -> bool
  {
    d => !OwnedBy(d, owners)
  }

  /** The `_id` texts of the sessions of `owners`. */
  function OwnedKeys(sessions: seq<Doc>, owners: set<string>): set<string>
  {
    set d | d in sessions && OwnedBy(d, owners) :: IdText(d)
  }

  /** Removing the model found by `s`'s `_id` from the filtered list is filtering `s` out too. */
  lemma DropFound(S: seq<Doc>, done: seq<Doc>, s: Doc, i: nat)
    requires Keyed(S) && s in S && Keyed(Filter(S, Outside(done)))
    requires i < |Filter(S, Outside(done))| && IdText(Filter(S, Outside(done))[i]) == IdText(s)
    ensures var cur := Filter(S, Outside(done)); cur[..i] + cur[i + 1..] == Filter(S, Outside(done + [s]))
  {
    var cur := Filter(S, Outside(done));
    var other := (d: Doc) => IdText(d) != IdText(s);
    forall j | 0 <= j < |cur| && j != i ensures other(cur[j]) {
    }
    FilterSkipsOne(cur, other, i);
    forall d | d in S ensures Outside(done + [s])(d) == (Outside(done)(d) && other(d)) {
      if IdText(d) == IdText(s) {
        KeyedSameId(S, d, s);
      }
    }
    FilterFilter(S, Outside(done), other, Outside(done + [s]));
  }

  lemma IdsOfSnoc(done: seq<Doc>, s: Doc)
    ensures IdsOf(done + [s]) == IdsOf(done) + {IdText(s)}
  {
  }

  /** Removing two sets of keys in turn is removing their union. */
  lemma RemoveKeysTwice(m: map<string, Doc>, a: set<string>, b: set<string>)
    ensures (m - a) - b == m - (a + b)
  {
  }

  /** A session no longer in the filtered list was removed by an earlier step. */
  lemma DropMissing(S: seq<Doc>, done: seq<Doc>, s: Doc)
    requires s in S && s !in Filter(S, Outside(done))
    ensures Filter(S, Outside(done)) == Filter(S, Outside(done + [s]))
    ensures IdsOf(done) == IdsOf(done + [s])
  {
    assert s in done;
    FilterCongruent(S, Outside(done), Outside(done + [s]));
  }

  /**
   * One step of the session loop of removeUsers: the session `s` (one of
   * the sessions `S` held when the loop began) is removed by its `_id`,
   * unless an earlier step removed it.
   */
  method DropSession(app: App, ghost S: seq<Doc>, ghost st: map<string, Doc>, ghost done: seq<Doc>, s: Doc)
    requires app.Valid() && Keyed(S) && s in S && ID in s
    requires app.sessions.models == Filter(S, Outside(done)) && app.sessions.stored == st - IdsOf(done)
    modifies app.sessions`models, app.sessions`stored
    ensures app.Valid()
    ensures app.sessions.models == Filter(S, Outside(done + [s])) && app.sessions.stored == st - IdsOf(done + [s])
  {
    ghost var cur := app.sessions.models;
    IdsOfSnoc(done, s);
    RemoveKeysTwice(st, IdsOf(done), {IdText(s)});
    KeyedById(cur, IdText(s));
    var removed := app.sessions.Remove(IdText(s));
    if removed {
      DropFound(S, done, s, IndexById(cur, IdText(s)).value);
    } else {
      DropMissing(S, done, s);
    }
  }

  /**
   * The session part of removeUsers for one removed user: every session
   * getListBy finds for the user is removed by its `_id`. `had` tells
   * whether the user had any session.
   */
  method RemoveSessionsOf(app: App, id: string) returns (had: bool)
    requires app.Valid()
    modifies app.sessions`models, app.sessions`stored
    ensures app.Valid()
    ensures had <==> ListBy(old(app.sessions.models), "user_id", VStr(id)).Some?
    ensures app.sessions.models == Filter(old(app.sessions.models), NotOwnedBy({id}))
    ensures app.sessions.stored == old(app.sessions.stored) - OwnedKeys(old(app.sessions.models), {id})
  {
    ghost var S, st := app.sessions.models, app.sessions.stored;
    var list := ListBy(app.sessions.models, "user_id", VStr(id));
    if list.None? {
      NoneOwned(S, id);
      return false;
    }
    var sessions := list.value;
    DropAll(app, S, st, sessions);
    AllOwned(S, id, sessions);
    had := true;
  }

  /** Removes each of `sessions`, all taken from `S`, by its `_id`. */
  method DropAll(app: App, ghost S: seq<Doc>, ghost st: map<string, Doc>, sessions: seq<Doc>)
    requires app.Valid() && Keyed(S) && forall d :: d in sessions ==> d in S
    requires app.sessions.models == S && app.sessions.stored == st
    modifies app.sessions`models, app.sessions`stored
    ensures app.Valid()
    ensures app.sessions.models == Filter(S, Outside(sessions)) && app.sessions.stored == st - IdsOf(sessions)
  {
    hide Filter, IdsOf, Outside;
    var j := 0;
    DropNone(S, st, sessions);
    while j < |sessions|
      invariant 0 <= j <= |sessions| && app.Valid()
      invariant app.sessions.models == Filter(S, Outside(sessions[..j]))
      invariant app.sessions.stored == st - IdsOf(sessions[..j])
    {
      var s := sessions[j];
      KeyedMember(S, s);
      if Get(s, ID) != VNull {
        DropSession(app, S, st, sessions[..j], s);
      }
      TakeOneMore(sessions, j);
      j := j + 1;
    }
    assert sessions[..j] == sessions;
  }

  /** Before the loop of DropAll nothing is dropped. */
  lemma DropNone(S: seq<Doc>, st: map<string, Doc>, sessions: seq<Doc>)
    ensures Filter(S, Outside(sessions[..0])) == S && st - IdsOf(sessions[..0]) == st
  {
    assert sessions[..0] == [];
    assert st - IdsOf([]) == st;
    FilterKeepsAll(S, Outside([]));
  }

  /** Every model of a keyed list has an `_id`. */
  lemma KeyedMember(S: seq<Doc>, s: Doc)
    requires Keyed(S) && s in S
    ensures ID in s
  {
  }

  lemma TakeOneMore(xs: seq<Doc>, j: nat)
    requires j < |xs|
    ensures xs[..j + 1] == xs[..j] + [xs[j]]
  {
  }

  /** A user without sessions owns none: removing its sessions changes nothing. */
  lemma NoneOwned(S: seq<Doc>, id: string)
    requires ListBy(S, "user_id", VStr(id)).None?
    ensures Filter(S, NotOwnedBy({id})) == S && OwnedKeys(S, {id}) == {}
  {
    forall j | 0 <= j < |S| ensures NotOwnedBy({id})(S[j]) {
      assert S[j] in S;
    }
    FilterKeepsAll(S, NotOwnedBy({id}));
  }

  /** The sessions getListBy finds for a user are exactly the user's sessions. */
  lemma AllOwned(S: seq<Doc>, id: string, sessions: seq<Doc>)
    requires ListBy(S, "user_id", VStr(id)) == Some(sessions)
    ensures Filter(S, Outside(sessions)) == Filter(S, NotOwnedBy({id}))
    ensures IdsOf(sessions) == OwnedKeys(S, {id})
  {
    FilterCongruent(S, Outside(sessions), NotOwnedBy({id}));
    forall x | x in OwnedKeys(S, {id}) ensures x in IdsOf(sessions) {
      var d :| d in S && OwnedBy(d, {id}) && IdText(d) == x;
      assert d in sessions;
    }
  }

  /** Keeps the models whose `_id` text is none of `ids`. */
  function Unnamed(ids: seq<string>): Doc -> bool
  {
    d => IdText(d) !in ids
  }

  /**
   * The users removeUsers removes: the ids among `ids` that getById finds
   * in the users collection it starts from.
   */
  function Removable(users: seq<Doc>, ids: seq<string>): set<string>
  {
    set id | id in ids && ById(users, id).Some?
  }

  /**
   * The number removeUsers returns as written: only the removed users
   * that had at least one session are counted, because the loop moves on
   * to the next id before `result++` when getListBy finds no session.
   */
  function RemovedCountAsWritten(users: seq<Doc>, sessions: seq<Doc>, ids: seq<string>): (n: nat)
    ensures n <= |Removable(users, ids)|
  {
    var counted := set id | id in Removable(users, ids) && ListBy(sessions, "user_id", VStr(id)).Some?;
    assert counted <= Removable(users, ids);
    SubsetCard(counted, Removable(users, ids));
    |counted|
  }

  lemma {:induction false} SubsetCard(a: set<string>, b: set<string>)
    requires a <= b
    ensures |a| <= |b|
  {
    if a != {} {
      var x :| x in a;
      SubsetCard(a - {x}, b - {x});
    }
  }

  /** A user without sessions is removed but not counted by the code as written. */
  lemma RemovedUserWithoutSessions()
    ensures var users := [map[ID := VStr("u1")]];
      RemovedCountAsWritten(users, [], ["u1"]) == 0 && |Removable(users, ["u1"])| == 1
  {
    var users := [map[ID := VStr("u1")]];
    assert IdText(users[0]) == "u1";
    ByIdFindsEach(users, 0);
    assert Removable(users, ["u1"]) == {"u1"};
    assert (set id | id in Removable(users, ["u1"]) && ListBy([], "user_id", VStr(id)).Some?) == {};
  }

  /**
   * Users.removeUsers (with the count corrected): every id that names a
   * user removes that user from the collection and the database, then
   * every session of that user; ids that name no user, or a user already
   * removed, are skipped. The result is the number of users removed.
   */
  method RemoveUsers(app: App, ids: seq<string>) returns (count: nat)
    requires app.Valid()
    modifies app.users`models, app.users`stored, app.sessions`models, app.sessions`stored
    ensures app.Valid()
    ensures count == |Removable(old(app.users.models), ids)|
    ensures app.users.models == Filter(old(app.users.models), Unnamed(ids))
    ensures app.users.stored == old(app.users.stored) - Removable(old(app.users.models), ids)
    ensures app.sessions.models == Filter(old(app.sessions.models), NotOwnedBy(Removable(old(app.users.models), ids)))
    ensures app.sessions.stored ==
      old(app.sessions.stored) - OwnedKeys(old(app.sessions.models), Removable(old(app.users.models), ids))
  {
    ghost var U0, Ust, S0, Sst := app.users.models, app.users.stored, app.sessions.models, app.sessions.stored;
    RemoveNoneYet(U0, S0, Ust, Sst, ids);
    count := 0;
    var k := 0;
    while k < |ids|
      invariant 0 <= k <= |ids| && app.Valid()
      invariant count == |Removable(U0, ids[..k])|
      invariant app.users.models == Filter(U0, Unnamed(ids[..k]))
      invariant app.users.stored == Ust - Removable(U0, ids[..k])
      invariant app.sessions.models == Filter(S0, NotOwnedBy(Removable(U0, ids[..k])))
      invariant app.sessions.stored == Sst - OwnedKeys(S0, Removable(U0, ids[..k]))
    {
      var removed := RemoveOne(app, U0, Ust, S0, Sst, ids, k);
      if removed {
        count := count + 1;
      }
      k := k + 1;
    }
    assert ids[..k] == ids;
  }

  lemma RemoveNoneYet(U0: seq<Doc>, S0: seq<Doc>, Ust: map<string, Doc>, Sst: map<string, Doc>, ids: seq<string>)
    ensures Removable(U0, ids[..0]) == {} && Filter(U0, Unnamed(ids[..0])) == U0
    ensures Ust - Removable(U0, ids[..0]) == Ust
    ensures Filter(S0, NotOwnedBy(Removable(U0, ids[..0]))) == S0 && OwnedKeys(S0, {}) == {}
    ensures Sst - OwnedKeys(S0, {}) == Sst
  {
    FilterKeepsAll(U0, Unnamed(ids[..0]));
    FilterKeepsAll(S0, NotOwnedBy({}));
  }

  /** One pass of removeUsers' loop, for `ids[k]`. */
  method RemoveOne(app: App, ghost U0: seq<Doc>, ghost Ust: map<string, Doc>, ghost S0: seq<Doc>,
                   ghost Sst: map<string, Doc>, ids: seq<string>, k: nat) returns (removed: bool)
    requires app.Valid() && Keyed(U0) && k < |ids|
    requires app.users.models == Filter(U0, Unnamed(ids[..k]))
    requires app.users.stored == Ust - Removable(U0, ids[..k])
    requires app.sessions.models == Filter(S0, NotOwnedBy(Removable(U0, ids[..k])))
    requires app.sessions.stored == Sst - OwnedKeys(S0, Removable(U0, ids[..k]))
    modifies app.users`models, app.users`stored, app.sessions`models, app.sessions`stored
    ensures app.Valid()
    ensures |Removable(U0, ids[..k + 1])| == |Removable(U0, ids[..k])| + (if removed then 1 else 0)
    ensures app.users.models == Filter(U0, Unnamed(ids[..k + 1]))
    ensures app.users.stored == Ust - Removable(U0, ids[..k + 1])
    ensures app.sessions.models == Filter(S0, NotOwnedBy(Removable(U0, ids[..k + 1])))
    ensures app.sessions.stored == Sst - OwnedKeys(S0, Removable(U0, ids[..k + 1]))
  {
    var id := ids[k];
    ghost var cur := app.users.models;
    ghost var R := Removable(U0, ids[..k]);
    var found := IndexById(app.users.models, id);
    if found.None? {
      UserMissing(U0, ids, k);
      return false;
    }
    UserFound(U0, ids, k, found.value);
    var status := app.users.Remove(id);
    assert app.users.stored == (Ust - R) - {id};
    RemoveKeysTwice(Ust, R, {id});
    var had := RemoveSessionsOf(app, id);
    SessionsOfOneMore(S0, Sst, R, id);
    removed := true;
  }

  /** An id that names no remaining user changes nothing. */
  lemma UserMissing(U0: seq<Doc>, ids: seq<string>, k: nat)
    requires Keyed(U0) && k < |ids|
    requires IndexById(Filter(U0, Unnamed(ids[..k])), ids[k]).None?
    ensures Filter(U0, Unnamed(ids[..k + 1])) == Filter(U0, Unnamed(ids[..k]))
    ensures Removable(U0, ids[..k + 1]) == Removable(U0, ids[..k])
  {
    MissingKeepsUsers(U0, ids, k);
    MissingKeepsRemovable(U0, ids, k);
  }

  /** An id that names no remaining user leaves the remaining users as they are. */
  lemma MissingKeepsUsers(U0: seq<Doc>, ids: seq<string>, k: nat)
    requires Keyed(U0) && k < |ids|
    requires IndexById(Filter(U0, Unnamed(ids[..k])), ids[k]).None?
    ensures Filter(U0, Unnamed(ids[..k + 1])) == Filter(U0, Unnamed(ids[..k]))
  {
    var id, cur := ids[k], Filter(U0, Unnamed(ids[..k]));
    FilterKeyed(U0, Unnamed(ids[..k]));
    KeyedById(cur, id);
    OneMoreName(U0, ids, k);
    forall j | 0 <= j < |cur| ensures Unnamed([id])(cur[j]) {
      assert cur[j] in cur;
    }
    FilterKeepsAll(cur, Unnamed([id]));
  }

  /** An id that names no remaining user was either named before or names no loaded user. */
  lemma MissingKeepsRemovable(U0: seq<Doc>, ids: seq<string>, k: nat)
    requires Keyed(U0) && k < |ids|
    requires IndexById(Filter(U0, Unnamed(ids[..k])), ids[k]).None?
    ensures Removable(U0, ids[..k + 1]) == Removable(U0, ids[..k])
  {
    var id, cur := ids[k], Filter(U0, Unnamed(ids[..k]));
    assert ids[..k + 1] == ids[..k] + [id];
    if id !in ids[..k] && ById(U0, id).Some? {
      var u := ById(U0, id).value;
      assert u in U0;
      assert u in cur;
      FilterKeyed(U0, Unnamed(ids[..k]));
      KeyedById(cur, id);
      assert false;
    }
  }

  /** An id that names a remaining user removes exactly that user and adds it to the removed ones. */
  lemma UserFound(U0: seq<Doc>, ids: seq<string>, k: nat, i: nat)
    requires Keyed(U0) && k < |ids|
    requires IndexById(Filter(U0, Unnamed(ids[..k])), ids[k]) == Some(i)
    ensures var cur := Filter(U0, Unnamed(ids[..k]));
      Filter(U0, Unnamed(ids[..k + 1])) == cur[..i] + cur[i + 1..]
    ensures ids[k] !in Removable(U0, ids[..k])
    ensures Removable(U0, ids[..k + 1]) == Removable(U0, ids[..k]) + {ids[k]}
  {
    var cur := Filter(U0, Unnamed(ids[..k]));
    OneMoreName(U0, ids, k);
    FilterSkipsOne(cur, Unnamed([ids[k]]), i);
    UserFoundRemovable(U0, ids, k, cur[i]);
  }

  /** Leaving out the names `ids[..k + 1]` is leaving out `ids[..k]`, then `ids[k]`. */
  lemma OneMoreName(U0: seq<Doc>, ids: seq<string>, k: nat)
    requires k < |ids|
    ensures Filter(Filter(U0, Unnamed(ids[..k])), Unnamed([ids[k]])) == Filter(U0, Unnamed(ids[..k + 1]))
  {
    assert ids[..k + 1] == ids[..k] + [ids[k]];
    FilterFilter(U0, Unnamed(ids[..k]), Unnamed([ids[k]]), Unnamed(ids[..k + 1]));
  }

  lemma UserFoundRemovable(U0: seq<Doc>, ids: seq<string>, k: nat, d: Doc)
    requires Keyed(U0) && k < |ids|
    requires d in Filter(U0, Unnamed(ids[..k])) && IdText(d) == ids[k]
    ensures ids[k] !in Removable(U0, ids[..k])
    ensures Removable(U0, ids[..k + 1]) == Removable(U0, ids[..k]) + {ids[k]}
  {
    assert ids[..k + 1] == ids[..k] + [ids[k]];
    KeyedById(U0, ids[k]);
  }

  /** Removing one more owner's sessions is removing the sessions of the larger set of owners. */
  lemma SessionsOfOneMore(S0: seq<Doc>, Sst: map<string, Doc>, R: set<string>, id: string)
    ensures Filter(Filter(S0, NotOwnedBy(R)), NotOwnedBy({id})) == Filter(S0, NotOwnedBy(R + {id}))
    ensures (Sst - OwnedKeys(S0, R)) - OwnedKeys(Filter(S0, NotOwnedBy(R)), {id}) == Sst - OwnedKeys(S0, R + {id})
  {
    FilterFilter(S0, NotOwnedBy(R), NotOwnedBy({id}), NotOwnedBy(R + {id}));
    RemoveKeysTwice(Sst, OwnedKeys(S0, R), OwnedKeys(Filter(S0, NotOwnedBy(R)), {id}));
    forall x | x in OwnedKeys(S0, R + {id})
      ensures x in OwnedKeys(S0, R) + OwnedKeys(Filter(S0, NotOwnedBy(R)), {id})
    {
      var d :| d in S0 && OwnedBy(d, R + {id}) && IdText(d) == x;
      if !OwnedBy(d, R) {
        assert d in Filter(S0, NotOwnedBy(R));
      }
    }
  }
}
