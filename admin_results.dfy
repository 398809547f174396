/**
 * The AdminControllerRequestResults enumeration of AdminController.kt:
 * the result codes of the admin actions, their messages and the error
 * response the actions build from them.
 */
module AdminResults {
  import opened Json

  /** AdminControllerRequestResults. */
  datatype AdminCode = AdminOk | FieldEmpty | IncorrectValue | AlreadyExists | EmptyResult | ObjectNotFound

  /** The constant's name, which is what a response carries. */
  function AdminCodeName(c: AdminCode): string
  {
    match c
    case AdminOk => "RESULT_OK"
    case FieldEmpty => "RESULT_ERROR_FIELD_IS_EMPTY"
    case IncorrectValue => "RESULT_ERROR_INCORRECT_FIELD_VALUE"
    case AlreadyExists => "RESULT_ERROR_FIELD_ALREADY_EXISTS"
    case EmptyResult => "RESULT_ERROR_EMPTY_RESULT"
    case ObjectNotFound => "RESULT_ERROR_OBJECT_NOT_FOUND"
  }

  /** Different codes reach the client under different names. */
  lemma AdminCodeNamesDiffer(a: AdminCode, b: AdminCode)
    requires a != b
    ensures AdminCodeName(a) != AdminCodeName(b)
  {
  }

  /** AdminControllerRequestResults.getMessage: empty only for RESULT_OK. */
  function AdminMessage(c: AdminCode): (m: string)
    ensures m == "" <==> c == AdminOk
  {
    match c
    case AdminOk => ""
    case FieldEmpty => "Field is empty"
    case IncorrectValue => "Incorrect field value"
    case EmptyResult => "Result is empty"
    case ObjectNotFound => "Object not found"
    case AlreadyExists => "Field with this value already exists"
  }

  /** The error response of an admin action: status "error", the code and the field it concerns. */
  function AdminError(c: AdminCode, field: string): (r: Obj)
    ensures r.Keys == {"status", "status_code", "field"}
    ensures r["status"] == VStr("error") && r["status_code"] == VCode(AdminCodeName(c)) && r["field"] == VStr(field)
  {
    ErrorResponse(AdminCodeName(c), field)
  }

  /** The success header of an admin action: status "ok" and RESULT_OK. */
  function AdminDone(): (r: Obj)
    ensures r.Keys == {"status", "status_code"}
    ensures r["status"] == VStr("ok") && r["status_code"] == VCode(AdminCodeName(AdminOk))
  {
    map["status" := VStr("ok"), "status_code" := VCode(AdminCodeName(AdminOk))]
  }
}
