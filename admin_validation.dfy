/**
 * AdminController.createModel and AdminController.validateFields: how an
 * admin's list of `{field: value}` items becomes a user document, and the
 * checks the document must pass before admin_add_user or admin_update_user
 * saves it.
 */
module AdminValidation {
  import opened Wrappers
  import opened Strings
  import opened Json
  import opened Platform
  import opened DBModels
  import opened Queries
  import opened ChatApp
  import opened AdminResults

  // ------------------------------------------------------ one-key objects

  /** An object with one entry has one key. */
  lemma OneKey(m: Obj, k: string, k': string)
    requires |m| == 1 && k in m && k' in m
    ensures k == k'
  {
    var rest := m.Keys - {k};
    assert |rest| == 0;
    assert rest == {};
  }

  /** The key of a one-entry object (`field.keys.iterator().next()`). */
  function TheKey(m: Obj): (k: string)
    requires |m| == 1
    ensures k in m && forall k' :: k' in m ==> k' == k
  {
    assert exists k :: k in m by {
      var x :| x in m.Keys;
    }
    var k :| k in m;
    assert forall k' :: k' in m ==> k' == k by {
      forall k' | k' in m ensures k' == k {
        OneKey(m, k, k');
      }
    }
    k
  }

  // ----------------------------------------------------------- createModel

  /** A schema without Long fields: createModel stores a Long field's value as a string. */
  predicate NoLong(schema: Schema)
  {
    forall k :: k in schema ==> schema[k] != LongType
  }

  /**
   * The field one item of the list sets and the value it stores, if any:
   * the item must be (or parse to) a one-entry object naming a schema field
   * other than `_id`; the value's text is trimmed, then an Int field takes
   * it as an Int (and is skipped when it is not one), a Boolean field takes
   * `toBoolean`, and every other field the trimmed text.
   */
  function FieldWrite(parse: string -> Option<Value>, schema: Schema, item: Value): (r: Option<(string, Value)>)
    ensures r.Some? ==> r.value.0 in schema && r.value.0 != ID
    ensures r.Some? && schema[r.value.0] != LongType ==> Conforms(schema[r.value.0], r.value.1)
    ensures r.Some? ==> IsPrimitive(r.value.1)
  {
    match ToJSONObject(parse, item)
    case None => None
    case Some(field) =>
      if |field| != 1 then None
      else
        var key := TheKey(field);
        if key !in schema || key == ID then None
        else
          match Stored(schema[key], Trim(Text(field[key])))
          case Some(v) => Some((key, v))
          case None => None
  }

  /** The value createModel stores for a field of type `t` from its trimmed text, or None when it skips it. */
  function Stored(t: FieldType, text: string): (r: Option<Value>)
    ensures r.Some? && t != LongType ==> Conforms(t, r.value)
    ensures r.Some? ==> IsPrimitive(r.value)
  {
    match t
    case IntType => (match ParseInt(text) case Some(n) => Some(VInt(n)) case None => None)
    case BooleanType => Some(VBool(ToBoolean(text)))
    case _ => Some(VStr(text))
  }

  /** The document after the items have been applied in list order. */
  function Written(parse: string -> Option<Value>, schema: Schema, doc: Doc, fields: seq<Value>): Doc
  {
    if fields == [] then doc
    else
      var before := Written(parse, schema, doc, fields[..|fields| - 1]);
      match FieldWrite(parse, schema, fields[|fields| - 1])
      case Some((k, v)) => before[k := v]
      case None => before
  }

  /**
   * createModel: starting from the document of `obj`, every item of the
   * list that names a schema field sets it; items that are malformed, name
   * an unknown field or `_id`, or hold a value of the wrong type are skipped.
   */
  method CreateModel(parse: string -> Option<Value>, schema: Schema, doc: Doc, fields: seq<Value>) returns (model: Doc)
    ensures model == Written(parse, schema, doc, fields)
  {
    model := doc;
    var i := 0;
    while i < |fields|
      invariant 0 <= i <= |fields|
      invariant model == Written(parse, schema, doc, fields[..i])
    {
      assert fields[..i + 1][..i] == fields[..i];
      model := ApplyItem(parse, schema, model, fields[i]);
      i := i + 1;
    }
    assert fields[..|fields|] == fields;
  }

  /** One round of the createModel loop: the item's field set on the model, or the model as it was. */
  method ApplyItem(parse: string -> Option<Value>, schema: Schema, model: Doc, item: Value) returns (model': Doc)
    ensures model' == match FieldWrite(parse, schema, item) case Some((k, v)) => model[k := v] case None => model
  {
    model' := model;
    var field := ToJSONObject(parse, item);
    if field.Some? && |field.value| == 1 {
      var key :| key in field.value;
      assert key == TheKey(field.value);
      if key in schema && key != ID {
        var value := StoredValue(schema[key], Trim(Text(field.value[key])));
        assert FieldWrite(parse, schema, item) == if value.Some? then Some((key, value.value)) else None;
        if value.Some? {
          model' := model[key := value.value];
        }
      } else {
        assert FieldWrite(parse, schema, item).None?;
      }
    } else {
      assert FieldWrite(parse, schema, item).None?;
    }
  }

  /** The `when` on the field's type name in the createModel loop. */
  method StoredValue(t: FieldType, text: string) returns (v: Option<Value>)
    ensures v == Stored(t, text)
  {
    match t
    case IntType =>
      var parsed := ParseInt(text);
      v := if parsed.Some? then Some(VInt(parsed.value)) else None;
    case BooleanType =>
      v := Some(VBool(ToBoolean(text)));
    case _ =>
      v := Some(VStr(text));
  }

  /** createModel never touches `_id` nor a field outside the schema. */
  lemma {:induction false} WrittenKeepsOthers(parse: string -> Option<Value>, schema: Schema, doc: Doc, fields: seq<Value>)
    ensures forall k :: k !in schema || k == ID ==> Get(Written(parse, schema, doc, fields), k) == Get(doc, k)
    ensures doc.Keys <= Written(parse, schema, doc, fields).Keys <= doc.Keys + schema.Keys
  {
    if fields != [] {
      WrittenKeepsOthers(parse, schema, doc, fields[..|fields| - 1]);
    }
  }

  /**
   * On a schema without Long fields createModel keeps a well-typed
   * document well typed, and leaves only strings, numbers and booleans in it.
   */
  lemma {:induction false} WrittenWellTyped(parse: string -> Option<Value>, schema: Schema, doc: Doc, fields: seq<Value>)
    requires NoLong(schema) && WellTyped(schema, doc)
    ensures WellTyped(schema, Written(parse, schema, doc, fields))
  {
    if fields != [] {
      WrittenWellTyped(parse, schema, doc, fields[..|fields| - 1]);
    }
  }

  // -------------------------------------------------------- validateFields

  /** What validateFields returns: the error object, or the document of the user model it built. */
  datatype Validation = Refused(error: Obj) | Accepted(doc: Doc)

  /** The verdict of the checks on the built document. */
  datatype Verdict = Refuse(code: AdminCode, field: string) | Throw(exception: string) | Pass

  /** The login and e-mail of the user being updated, trimmed; None for a new user. */
  function Known(initial: Doc, update: bool): Option<(string, string)>
  {
    if update then Some((Trim(Text(Get(initial, "login"))), Trim(Text(Get(initial, "email"))))) else None
  }

  /** Another user than the one being updated already holds `value` in `field`. */
  predicate TakenByOther(users: seq<Doc>, field: string, value: string, known: Option<string>)
  {
    By(users, field, VStr(value)).Some? && (known.None? || known.value != value)
  }

  /**
   * The checks on the required fields, in order: login, email and
   * default_room present; login not held by another user; a valid e-mail
   * not held by another user; a default room that is loaded.
   */
  function RequiredVerdict(env: Env, users: seq<Doc>, rooms: seq<Doc>, user: Doc, known: Option<(string, string)>): (r: Verdict)
    ensures !r.Throw?
    ensures r.Pass? <==> (Get(user, "login") != VNull && Get(user, "email") != VNull && Get(user, "default_room") != VNull &&
      !TakenByOther(users, "login", Text(Get(user, "login")), if known.Some? then Some(known.value.0) else None) &&
      env.isValidEmail(Text(user["email"])) &&
      !TakenByOther(users, "email", Text(Get(user, "email")), if known.Some? then Some(known.value.1) else None) &&
      ById(rooms, Text(user["default_room"])).Some?)
  {
    if Get(user, "login") == VNull then Refuse(FieldEmpty, "login")
    else if Get(user, "email") == VNull then Refuse(FieldEmpty, "email")
    else if Get(user, "default_room") == VNull then Refuse(FieldEmpty, "default_room")
    else if TakenByOther(users, "login", Text(user["login"]), if known.Some? then Some(known.value.0) else None) then
      Refuse(AlreadyExists, "login")
    else if !env.isValidEmail(Text(user["email"])) then Refuse(IncorrectValue, "email")
    else if TakenByOther(users, "email", Text(user["email"]), if known.Some? then Some(known.value.1) else None) then
      Refuse(AlreadyExists, "email")
    else if ById(rooms, Text(user["default_room"])).None? then Refuse(IncorrectValue, "default_room")
    else Pass
  }

  /** A birth date between 0 and now, in seconds; text that is not an Int throws. */
  function BirthVerdict(env: Env, user: Doc): Verdict
  {
    if Get(user, "birthDate") == VNull then Pass
    else match ParseInt(Text(user["birthDate"]))
      case None => Throw("NumberFormatException")
      case Some(b) => if b < 0 || b > Now(env) then Refuse(IncorrectValue, "birthDate") else Pass
  }

  /** Gender "M" or "F" when given. */
  function GenderVerdict(user: Doc): Verdict
  {
    if Get(user, "gender") != VNull && Text(user["gender"]) != "M" && Text(user["gender"]) != "F" then
      Refuse(IncorrectValue, "gender")
    else Pass
  }

  /** Role 1 or 2 when given; text that is not an Int throws. */
  function RoleVerdict(user: Doc): Verdict
  {
    if Get(user, "role") == VNull then Pass
    else match ParseInt(Text(user["role"]))
      case None => Throw("NumberFormatException")
      case Some(n) => if n != 1 && n != 2 then Refuse(IncorrectValue, "role") else Pass
  }

  /** A password, when given, that is not blank. */
  function PasswordVerdict(user: Doc): Verdict
  {
    if Get(user, "password") != VNull && Trim(Text(user["password"])) == "" then Refuse(FieldEmpty, "password")
    else Pass
  }

  /** The first verdict that is not Pass, in the order of the checks. */
  function Then(a: Verdict, b: Verdict): Verdict
  {
    if a.Pass? then b else a
  }

  /** All checks of validateFields on the built document, in their order. */
  function Checks(env: Env, users: seq<Doc>, rooms: seq<Doc>, user: Doc, known: Option<(string, string)>): (r: Verdict)
    ensures r.Pass? <==> (RequiredVerdict(env, users, rooms, user, known).Pass? && BirthVerdict(env, user).Pass? &&
      GenderVerdict(user).Pass? && RoleVerdict(user).Pass? && PasswordVerdict(user).Pass?)
  {
    Then(RequiredVerdict(env, users, rooms, user, known),
      Then(BirthVerdict(env, user), Then(GenderVerdict(user), Then(RoleVerdict(user), PasswordVerdict(user)))))
  }

  /** The schema types of the fields validateFields writes or reads as numbers. */
  lemma UserFieldTypes()
    ensures UserSchema["role"] == IntType && UserSchema["birthDate"] == IntType && UserSchema["active"] == BooleanType
    ensures UserSchema["password"] == StringType && UserSchema["first_name"] == StringType
    ensures UserSchema["last_name"] == StringType
    ensures UserSchema["login"] == StringType && UserSchema["email"] == StringType
  {
  }

  /** `user[key] = v` when the user has no value there. */
  function Defaulted(user: Doc, key: string, v: Value): (r: Doc)
    ensures Get(r, key) == (if Get(user, key) == VNull then v else user[key])
    ensures forall k :: k != key ==> Get(r, k) == Get(user, k)
    ensures key in UserSchema && Conforms(UserSchema[key], v) && WellTyped(UserSchema, user) ==> WellTyped(UserSchema, r)
  {
    if Get(user, key) == VNull then user[key := v] else user
  }

  /** `user[key] = v` when the user has a value there. */
  function Rewritten(user: Doc, key: string, v: Value): (r: Doc)
    ensures Get(r, key) == (if Get(user, key) == VNull then VNull else v)
    ensures forall k :: k != key ==> Get(r, k) == Get(user, k)
    ensures key in UserSchema && Conforms(UserSchema[key], v) && WellTyped(UserSchema, user) ==> WellTyped(UserSchema, r)
  {
    if Get(user, key) != VNull then user[key := v] else user
  }

  /** `value.toString().trim().toLowerCase().capitalize()` on a name, when given. */
  function Named(user: Doc, key: string): Doc
  {
    Rewritten(user, key, VStr(Capitalize(Lower(Trim(Text(Get(user, key)))))))
  }

  /** Some item of the list sets the password. */
  predicate PasswordGiven(parse: string -> Option<Value>, fields: seq<Value>)
  {
    exists i :: 0 <= i < |fields| && FieldWrite(parse, UserSchema, fields[i]).Some? && FieldWrite(parse, UserSchema, fields[i]).value.0 == "password"
  }

  /** The password, when the items give one, replaced by the BCrypt hash of its trimmed text. */
  function Hashed(env: Env, user: Doc, given: bool): Doc
  {
    if given then Rewritten(user, "password", VStr(env.hashPassword(Trim(Text(Get(user, "password")))))) else user
  }

  /**
   * The document after the checks: role 1 when not given, a password the
   * items give replaced by its BCrypt hash, the names capitalised, active
   * false when not given.
   */
  function Completed(env: Env, user: Doc, given: bool): (r: Doc)
  {
    Defaulted(Named(Named(Hashed(env, Defaulted(user, "role", VInt(1)), given), "first_name"), "last_name"), "active", VBool(false))
  }

  /**
   * The completion as AdminController.kt:849-859 writes it: whatever
   * password the document holds is hashed, also the stored hash an update
   * starts from.
   */
  function CompletedAsWritten(env: Env, user: Doc): Doc
  {
    Completed(env, user, true)
  }

  /**
   * validateFields: the user to update (for an id) or a new empty user, the
   * items applied by createModel, the checks, and the completed document
   * after the round trip through `toJSONString` and `Document.parse`.
   */
  function ValidationOf(env: Env, users: seq<Doc>, rooms: seq<Doc>, fields: seq<Value>, id: Option<string>): (r: Result<Validation>)
    ensures id.Some? && ById(users, id.value).None? ==> r == Ok(Refused(AdminError(ObjectNotFound, "id")))
    ensures r.Ok? && r.value.Refused? ==> Get(r.value.error, "status") == VStr("error")
  {
    if id.Some? && ById(users, id.value).None? then Ok(Refused(AdminError(ObjectNotFound, "id")))
    else
      var initial := if id.Some? then ById(users, id.value).value else map[];
      Judged(env, users, rooms, Written(env.parse, UserSchema, initial, fields), Known(initial, id.Some?), PasswordGiven(env.parse, fields))
  }

  /** The outcome of the checks on the built document: the refusal, the exception, or the completed document. */
  function Judged(env: Env, users: seq<Doc>, rooms: seq<Doc>, user: Doc, known: Option<(string, string)>, given: bool): Result<Validation>
  {
    match Checks(env, users, rooms, user, known)
    case Refuse(code, field) => Ok(Refused(AdminError(code, field)))
    case Throw(e) => Err(e)
    case Pass => Ok(Accepted(Stringify(Completed(env, user, given))))
  }

  /**
   * validateFields as the controller runs it: looks up the user, runs
   * createModel, the checks and the completion.
   */
  method ValidateFields(env: Env, users: seq<Doc>, rooms: seq<Doc>, fields: seq<Value>, id: Option<string>) returns (r: Result<Validation>)
    ensures r == ValidationOf(env, users, rooms, fields, id)
  {
    var initial: Doc := map[];
    if id.Some? {
      var found := ById(users, id.value);
      if found.None? {
        return Ok(Refused(AdminError(ObjectNotFound, "id")));
      }
      initial := found.value;
    }
    var user := CreateModel(env.parse, UserSchema, initial, fields);
    r := Judge(env, users, rooms, user, Known(initial, id.Some?), PasswordGiven(env.parse, fields));
  }

  /** The checks and the completion of validateFields on the built document. */
  method Judge(env: Env, users: seq<Doc>, rooms: seq<Doc>, user: Doc, known: Option<(string, string)>, given: bool) returns (r: Result<Validation>)
    ensures r == Judged(env, users, rooms, user, known, given)
  {
    var verdict := Checks(env, users, rooms, user, known);
    match verdict
    case Refuse(code, field) =>
      r := Ok(Refused(AdminError(code, field)));
    case Throw(e) =>
      r := Err(e);
    case Pass =>
      var completed := Completed(env, user, given);
      r := Ok(Accepted(Stringify(completed)));
  }

  // ------------------------------------------------------------ properties

  /** Every loaded user is well typed, as the users collection keeps them. */
  predicate AllWellTyped(users: seq<Doc>)
  {
    forall u :: u in users ==> WellTyped(UserSchema, u)
  }

  /** The users schema has no Long field and gives every field a type whose values are primitive. */
  lemma UserSchemaPrimitive(d: Doc)
    ensures NoLong(UserSchema)
    ensures WellTyped(UserSchema, d) ==> forall k :: k in d ==> IsPrimitive(d[k])
  {
  }

  /** `toJSONString` followed by `Document.parse` gives back a well-typed user document unchanged. */
  lemma RoundTripWellTyped(d: Doc)
    requires WellTyped(UserSchema, d)
    ensures Stringify(d) == d
  {
    UserSchemaPrimitive(d);
    StringifyProperties(d);
  }

  /** The completion keeps a well-typed user well typed. */
  lemma CompletedWellTyped(env: Env, user: Doc, given: bool)
    requires WellTyped(UserSchema, user)
    ensures WellTyped(UserSchema, Completed(env, user, given))
  {
    UserFieldTypes();
    var u1 := Defaulted(user, "role", VInt(1));
    var u2 := Hashed(env, u1, given);
    var u3 := Named(u2, "first_name");
    var u4 := Named(u3, "last_name");
    assert WellTyped(UserSchema, u4);
  }

  /** The completion keeps a given role and defaults a missing one to 1. */
  lemma CompletedRole(env: Env, user: Doc, given: bool)
    ensures Get(user, "role") != VNull ==> Get(Completed(env, user, given), "role") == user["role"]
    ensures Get(user, "role") == VNull ==> Get(Completed(env, user, given), "role") == VInt(1)
  {
    CompletedKeeps(env, Defaulted(user, "role", VInt(1)), "role", given);
  }

  /** After the completion the active flag is always set (false by default). */
  lemma CompletedActive(env: Env, user: Doc, given: bool)
    ensures Get(Completed(env, user, given), "active") != VNull
  {
  }

  /** A field the completion does not write keeps its value through it (the role through the steps after its default). */
  lemma CompletedKeeps(env: Env, user: Doc, k: string, given: bool)
    requires k != "password" && k != "first_name" && k != "last_name" && k != "active"
    ensures k != "role" ==> Get(Completed(env, user, given), k) == Get(user, k)
    ensures Get(Named(Named(Hashed(env, user, given), "first_name"), "last_name"), k) == Get(user, k)
  {
    var u2 := Hashed(env, user, given);
    var u3 := Named(u2, "first_name");
    var u4 := Named(u3, "last_name");
    assert Get(u2, k) == Get(user, k);
    assert Get(u3, k) == Get(u2, k);
    assert Get(u4, k) == Get(u3, k);
  }

  /** The checks never throw on a well-typed document: birthDate and role are always Int text. */
  lemma ChecksNeverThrow(env: Env, users: seq<Doc>, rooms: seq<Doc>, user: Doc, known: Option<(string, string)>)
    requires WellTyped(UserSchema, user)
    ensures !Checks(env, users, rooms, user, known).Throw?
  {
    NumbersNeverThrow(env, user);
    assert !GenderVerdict(user).Throw? && !PasswordVerdict(user).Throw?;
  }

  /** birthDate and role of a well-typed document are Int text, so their checks do not throw. */
  lemma NumbersNeverThrow(env: Env, user: Doc)
    requires WellTyped(UserSchema, user)
    ensures !BirthVerdict(env, user).Throw? && !RoleVerdict(user).Throw?
  {
    UserFieldTypes();
    if Get(user, "birthDate") != VNull {
      ParseIntText(user["birthDate"].i);
    }
    if Get(user, "role") != VNull {
      ParseIntText(user["role"].i);
    }
  }

  /** The document createModel builds for validateFields is well typed when the user it starts from is. */
  lemma BuiltWellTyped(env: Env, users: seq<Doc>, fields: seq<Value>, id: Option<string>)
    requires AllWellTyped(users)
    requires id.Some? ==> ById(users, id.value).Some?
    ensures var initial := if id.Some? then ById(users, id.value).value else map[];
      WellTyped(UserSchema, Written(env.parse, UserSchema, initial, fields))
  {
    var initial: Doc := if id.Some? then ById(users, id.value).value else map[];
    UserSchemaPrimitive(initial);
    WrittenWellTyped(env.parse, UserSchema, initial, fields);
  }

  /** On well-typed users validateFields never throws. */
  lemma NeverThrows(env: Env, users: seq<Doc>, rooms: seq<Doc>, fields: seq<Value>, id: Option<string>)
    requires AllWellTyped(users)
    ensures ValidationOf(env, users, rooms, fields, id).Ok?
  {
    if !(id.Some? && ById(users, id.value).None?) {
      BuiltWellTyped(env, users, fields, id);
      var initial := if id.Some? then ById(users, id.value).value else map[];
      var user := Written(env.parse, UserSchema, initial, fields);
      ChecksNeverThrow(env, users, rooms, user, Known(initial, id.Some?));
    }
  }

  /** What the checks establish about a well-typed document that passes them. */
  lemma PassedChecks(env: Env, users: seq<Doc>, rooms: seq<Doc>, user: Doc, known: Option<(string, string)>)
    requires WellTyped(UserSchema, user)
    requires Checks(env, users, rooms, user, known).Pass?
    ensures "login" in user && "email" in user && env.isValidEmail(Text(user["email"]))
    ensures "default_room" in user && ById(rooms, Text(user["default_room"])).Some?
    ensures Get(user, "role") in {VNull, VInt(1), VInt(2)}
    ensures Get(user, "gender") in {VNull, VStr("M"), VStr("F")}
    ensures !TakenByOther(users, "login", Text(Get(user, "login")), if known.Some? then Some(known.value.0) else None)
    ensures !TakenByOther(users, "email", Text(Get(user, "email")), if known.Some? then Some(known.value.1) else None)
  {
    assert RequiredVerdict(env, users, rooms, user, known).Pass?;
    PassedRole(user);
    PassedGender(user);
  }

  /** A well-typed gender that passes its check is M or F. */
  lemma PassedGender(user: Doc)
    requires WellTyped(UserSchema, user)
    requires GenderVerdict(user).Pass?
    ensures Get(user, "gender") in {VNull, VStr("M"), VStr("F")}
  {
    assert UserSchema["gender"] == StringType;
  }

  /** A well-typed role that passes its check is 1 or 2. */
  lemma PassedRole(user: Doc)
    requires WellTyped(UserSchema, user)
    requires RoleVerdict(user).Pass?
    ensures Get(user, "role") in {VNull, VInt(1), VInt(2)}
  {
    UserFieldTypes();
    if Get(user, "role") != VNull {
      ParseIntText(user["role"].i);
    }
  }

  /** A well-typed document the checks accept is completed into what a stored user needs, with its `_id` kept. */
  lemma JudgedAccepted(env: Env, users: seq<Doc>, rooms: seq<Doc>, user: Doc, known: Option<(string, string)>, given: bool)
    requires WellTyped(UserSchema, user)
    requires Judged(env, users, rooms, user, known, given).Ok? && Judged(env, users, rooms, user, known, given).value.Accepted?
    ensures var d := Judged(env, users, rooms, user, known, given).value.doc;
      WellTyped(UserSchema, d) &&
      "login" in d && "email" in d && env.isValidEmail(Text(d["email"])) &&
      "default_room" in d && ById(rooms, Text(d["default_room"])).Some? &&
      Get(d, "role") in {VInt(1), VInt(2)} && Get(d, "active") != VNull &&
      Get(d, "gender") in {VNull, VStr("M"), VStr("F")} &&
      Get(d, ID) == Get(user, ID) && (ID !in user ==> ID !in d) &&
      Get(d, "login") == Get(user, "login") && Get(d, "email") == Get(user, "email")
    ensures var d := Judged(env, users, rooms, user, known, given).value.doc;
      (By(users, "login", Get(d, "login")).Some? ==> known.Some? && Text(Get(d, "login")) == known.value.0) &&
      (By(users, "email", Get(d, "email")).Some? ==> known.Some? && Text(Get(d, "email")) == known.value.1)
  {
    hide Completed, Stringify;
    assert Checks(env, users, rooms, user, known).Pass?;
    PassedUser(env, users, rooms, user, known, given);
    JudgedNotTaken(env, users, rooms, user, known);
  }

  /** A user that passes the checks has a login and an e-mail no loaded user holds, unless they are the updated user's own. */
  lemma JudgedNotTaken(env: Env, users: seq<Doc>, rooms: seq<Doc>, user: Doc, known: Option<(string, string)>)
    requires WellTyped(UserSchema, user)
    requires Checks(env, users, rooms, user, known).Pass?
    ensures By(users, "login", Get(user, "login")).Some? ==> known.Some? && Text(Get(user, "login")) == known.value.0
    ensures By(users, "email", Get(user, "email")).Some? ==> known.Some? && Text(Get(user, "email")) == known.value.1
  {
    hide By, Checks;
    PassedChecks(env, users, rooms, user, known);
    UserFieldTypes();
    assert Get(user, "login") == VStr(Text(Get(user, "login"))) && Get(user, "email") == VStr(Text(Get(user, "email")));
  }

  /**
   * A user validateFields accepts is well typed and has a login, a valid
   * e-mail, a loaded default room, role 1 or 2, gender M or F when given,
   * and an active flag; a new user has no `_id` yet and an updated user
   * keeps its own.
   */
  lemma AcceptedUser(env: Env, users: seq<Doc>, rooms: seq<Doc>, fields: seq<Value>, id: Option<string>)
    requires AllWellTyped(users)
    requires ValidationOf(env, users, rooms, fields, id).Ok? && ValidationOf(env, users, rooms, fields, id).value.Accepted?
    ensures var d := ValidationOf(env, users, rooms, fields, id).value.doc;
      WellTyped(UserSchema, d) &&
      "login" in d && "email" in d && env.isValidEmail(Text(d["email"])) &&
      "default_room" in d && ById(rooms, Text(d["default_room"])).Some? &&
      Get(d, "role") in {VInt(1), VInt(2)} && Get(d, "active") != VNull &&
      Get(d, "gender") in {VNull, VStr("M"), VStr("F")} &&
      (id.None? ==> ID !in d) &&
      (id.Some? ==> Get(d, ID) == Get(ById(users, id.value).value, ID))
    ensures var d := ValidationOf(env, users, rooms, fields, id).value.doc;
      (By(users, "login", Get(d, "login")).Some? ==>
        id.Some? && Text(Get(d, "login")) == Trim(Text(Get(ById(users, id.value).value, "login")))) &&
      (By(users, "email", Get(d, "email")).Some? ==>
        id.Some? && Text(Get(d, "email")) == Trim(Text(Get(ById(users, id.value).value, "email"))))
  {
    hide Judged, By, Trim, Written, Completed, Stringify, Checks;
    BuiltWellTyped(env, users, fields, id);
    var initial := if id.Some? then ById(users, id.value).value else map[];
    var user := Written(env.parse, UserSchema, initial, fields);
    assert ValidationOf(env, users, rooms, fields, id) == Judged(env, users, rooms, user, Known(initial, id.Some?), PasswordGiven(env.parse, fields));
    WrittenKeepsOthers(env.parse, UserSchema, initial, fields);
    JudgedAccepted(env, users, rooms, user, Known(initial, id.Some?), PasswordGiven(env.parse, fields));
    AcceptedNotTaken(env, users, rooms, fields, id);
  }

  /** The login and e-mail of an accepted user are held by no loaded user, or, in an update, equal the updated user's own trimmed ones. */
  lemma AcceptedNotTaken(env: Env, users: seq<Doc>, rooms: seq<Doc>, fields: seq<Value>, id: Option<string>)
    requires AllWellTyped(users)
    requires ValidationOf(env, users, rooms, fields, id).Ok? && ValidationOf(env, users, rooms, fields, id).value.Accepted?
    ensures var d := ValidationOf(env, users, rooms, fields, id).value.doc;
      (By(users, "login", Get(d, "login")).Some? ==>
        id.Some? && Text(Get(d, "login")) == Trim(Text(Get(ById(users, id.value).value, "login")))) &&
      (By(users, "email", Get(d, "email")).Some? ==>
        id.Some? && Text(Get(d, "email")) == Trim(Text(Get(ById(users, id.value).value, "email"))))
  {
    hide Judged, Written, Completed, Stringify, Checks;
    BuiltWellTyped(env, users, fields, id);
    var initial := if id.Some? then ById(users, id.value).value else map[];
    var user := Written(env.parse, UserSchema, initial, fields);
    assert ValidationOf(env, users, rooms, fields, id) == Judged(env, users, rooms, user, Known(initial, id.Some?), PasswordGiven(env.parse, fields));
    JudgedAccepted(env, users, rooms, user, Known(initial, id.Some?), PasswordGiven(env.parse, fields));
  }

  /** A completed document that keeps the checked fields of a user that passed the checks has what a stored user needs. */
  lemma FilledUser(env: Env, rooms: seq<Doc>, user: Doc, c: Doc)
    requires WellTyped(UserSchema, user) && WellTyped(UserSchema, c)
    requires "login" in user && "email" in user && env.isValidEmail(Text(user["email"]))
    requires "default_room" in user && ById(rooms, Text(user["default_room"])).Some?
    requires Get(user, "role") in {VNull, VInt(1), VInt(2)}
    requires Get(user, "gender") in {VNull, VStr("M"), VStr("F")}
    requires Get(user, "role") != VNull ==> Get(c, "role") == user["role"]
    requires Get(user, "role") == VNull ==> Get(c, "role") == VInt(1)
    requires Get(c, "active") != VNull
    requires Get(c, ID) == Get(user, ID) && Get(c, "gender") == Get(user, "gender")
    requires Get(c, "login") == Get(user, "login") && Get(c, "email") == Get(user, "email")
    requires Get(c, "default_room") == Get(user, "default_room")
    ensures var d := Stringify(c);
      WellTyped(UserSchema, d) &&
      "login" in d && "email" in d && env.isValidEmail(Text(d["email"])) &&
      "default_room" in d && ById(rooms, Text(d["default_room"])).Some? &&
      Get(d, "role") in {VInt(1), VInt(2)} && Get(d, "active") != VNull &&
      Get(d, "gender") in {VNull, VStr("M"), VStr("F")} &&
      Get(d, ID) == Get(user, ID) && (ID !in user ==> ID !in d) &&
      Get(d, "login") == Get(user, "login") && Get(d, "email") == Get(user, "email")
  {
    hide Stringify;
    WellTypedHoldsValues(UserSchema, user);
    WellTypedHoldsValues(UserSchema, c);
    RoundTripWellTyped(c);
    assert "login" in c && "email" in c && c["email"] == user["email"];
    assert "default_room" in c && c["default_room"] == user["default_room"];
    assert ID !in user ==> ID !in c;
  }

  /** The document a well-typed user that passes the checks is completed and stored as. */
  lemma PassedUser(env: Env, users: seq<Doc>, rooms: seq<Doc>, user: Doc, known: Option<(string, string)>, given: bool)
    requires WellTyped(UserSchema, user)
    requires Checks(env, users, rooms, user, known).Pass?
    ensures var d := Stringify(Completed(env, user, given));
      WellTyped(UserSchema, d) &&
      "login" in d && "email" in d && env.isValidEmail(Text(d["email"])) &&
      "default_room" in d && ById(rooms, Text(d["default_room"])).Some? &&
      Get(d, "role") in {VInt(1), VInt(2)} && Get(d, "active") != VNull &&
      Get(d, "gender") in {VNull, VStr("M"), VStr("F")} &&
      Get(d, ID) == Get(user, ID) && (ID !in user ==> ID !in d) &&
      Get(d, "login") == Get(user, "login") && Get(d, "email") == Get(user, "email")
  {
    hide Completed, Checks;
    PassedChecks(env, users, rooms, user, known);
    CompletedWellTyped(env, user, given);
    CompletedRole(env, user, given);
    CompletedActive(env, user, given);
    CompletedKeeps(env, user, ID, given);
    CompletedKeeps(env, user, "login", given);
    CompletedKeeps(env, user, "email", given);
    CompletedKeeps(env, user, "default_room", given);
    CompletedKeeps(env, user, "gender", given);
    FilledUser(env, rooms, user, Completed(env, user, given));
  }

  // ------------------------------------------------------- stored password

  /** Items that give no password leave the password of the document they start from. */
  lemma {:induction false} WrittenKeepsPassword(parse: string -> Option<Value>, initial: Doc, fields: seq<Value>)
    requires !PasswordGiven(parse, fields)
    ensures Get(Written(parse, UserSchema, initial, fields), "password") == Get(initial, "password")
    decreases |fields|
  {
    if fields != [] {
      var front := fields[..|fields| - 1];
      assert !PasswordGiven(parse, front) by {
        forall i | 0 <= i < |front|
          ensures !(FieldWrite(parse, UserSchema, front[i]).Some? && FieldWrite(parse, UserSchema, front[i]).value.0 == "password")
        {
          assert front[i] == fields[i];
        }
      }
      WrittenKeepsPassword(parse, initial, front);
      var last := FieldWrite(parse, UserSchema, fields[|fields| - 1]);
      assert !(last.Some? && last.value.0 == "password");
    }
  }

  /**
   * As written, an admin update that gives no password still replaces the
   * user's stored hash `h` with the hash of `h`: the old password stops
   * matching as soon as the new hash differs from the old one. Completing
   * with the flag of the items keeps `h`.
   */
  lemma UpdateRehashesAsWritten(env: Env, initial: Doc, fields: seq<Value>, h: string)
    requires Get(initial, "password") == VStr(h)
    requires !PasswordGiven(env.parse, fields)
    ensures var user := Written(env.parse, UserSchema, initial, fields);
      Get(CompletedAsWritten(env, user), "password") == VStr(env.hashPassword(Trim(h)))
    ensures var user := Written(env.parse, UserSchema, initial, fields);
      env.hashPassword(Trim(h)) != h ==> Get(CompletedAsWritten(env, user), "password") != Get(initial, "password")
    ensures var user := Written(env.parse, UserSchema, initial, fields);
      Get(Completed(env, user, PasswordGiven(env.parse, fields)), "password") == VStr(h)
  {
    WrittenKeepsPassword(env.parse, initial, fields);
  }

  /** Completing without a given password leaves the password of a checked document as it is. */
  lemma JudgedKeepsPassword(env: Env, users: seq<Doc>, rooms: seq<Doc>, user: Doc, known: Option<(string, string)>)
    requires WellTyped(UserSchema, user)
    requires Judged(env, users, rooms, user, known, false).Ok? && Judged(env, users, rooms, user, known, false).value.Accepted?
    ensures Get(Judged(env, users, rooms, user, known, false).value.doc, "password") == Get(user, "password")
  {
    hide Checks, Stringify;
    var c := Completed(env, user, false);
    CompletedWellTyped(env, user, false);
    RoundTripWellTyped(c);
  }

  /** An admin update whose items give no password keeps the user's stored password as it is. */
  lemma UpdateKeepsPassword(env: Env, users: seq<Doc>, rooms: seq<Doc>, fields: seq<Value>, id: string)
    requires AllWellTyped(users)
    requires ValidationOf(env, users, rooms, fields, Some(id)).Ok? && ValidationOf(env, users, rooms, fields, Some(id)).value.Accepted?
    requires !PasswordGiven(env.parse, fields)
    ensures ById(users, id).Some?
    ensures Get(ValidationOf(env, users, rooms, fields, Some(id)).value.doc, "password") == Get(ById(users, id).value, "password")
  {
    hide Judged, By, Trim, Written, Completed, Stringify, Checks;
    BuiltWellTyped(env, users, fields, Some(id));
    var initial := ById(users, id).value;
    var user := Written(env.parse, UserSchema, initial, fields);
    assert ValidationOf(env, users, rooms, fields, Some(id)) == Judged(env, users, rooms, user, Known(initial, true), false);
    WrittenKeepsPassword(env.parse, initial, fields);
    JudgedKeepsPassword(env, users, rooms, user, Known(initial, true));
  }
}
