/**
 * JSON values as the server handles them (json-simple objects, BSON
 * documents, enum constants, ObjectIds, Kotlin pairs) and the helpers of
 * utils/json.kt.
 */
module Json {
  import opened Wrappers
  import opened Strings

  /** A value stored in a JSONObject, a JSONArray or a BSON Document. */
  datatype Value =
    | VNull
    | VInt(i: int)                          // Int or Long
    | VBool(b: bool)
    | VStr(s: string)
    | VId(hex: string)                      // a BSON ObjectId
    | VCode(name: string)                   // an enum constant (result codes)
    | VPair(first: string, second: string)  // a Kotlin Pair<String, String>
    | VArr(items: seq<Value>)               // a JSONArray
    | VObj(fields: map<string, Value>)      // a JSONObject

  /** A JSONObject or Document: keys mapped to values. */
  type Obj = map<string, Value>

  /** `obj[key]`: null when the key is absent. */
  function Get(o: Obj, key: string): Value
  {
    if key in o then o[key] else VNull
  }

  /**
   * Kotlin `toString()` (with `null.toString() == "null"`). Arrays and
   * objects are rendered by a placeholder that tells only empty from non-empty.
   */
  function Text(v: Value): string
  {
    match v
    case VNull => "null"
    case VInt(i) => IntText(i)
    case VBool(b) => if b then "true" else "false"
    case VStr(s) => s
    case VId(hex) => hex
    case VCode(name) => name
    case VPair(a, b) => "(" + a + ", " + b + ")"
    case VArr(items) => if items == [] then "[]" else "[...]"
    case VObj(fields) => if fields == map[] then "{}" else "{...}"
  }

  /** Only the empty string renders as "": null, numbers, booleans and containers never do. */
  lemma TextEmpty(v: Value)
    ensures Text(v) == "" <==> v in {VStr(""), VId(""), VCode("")}
  {
    if v.VInt? { IntTextNonEmpty(v.i); }
  }

  /** The values `toJSONString` keeps as they are. */
  predicate IsPrimitive(v: Value)
  {
    v.VStr? || v.VInt? || v.VBool?
  }

  /** The JSONParseResult enumeration. */
  datatype ParseCode = RESULT_OK | RESULT_ERROR_FIELD_IS_EMPTY | RESULT_ERROR_INCORRECT_FIELD_VALUE

  function ParseCodeName(c: ParseCode): string
  {
    match c
    case RESULT_OK => "RESULT_OK"
    case RESULT_ERROR_FIELD_IS_EMPTY => "RESULT_ERROR_FIELD_IS_EMPTY"
    case RESULT_ERROR_INCORRECT_FIELD_VALUE => "RESULT_ERROR_INCORRECT_FIELD_VALUE"
  }

  /** An error response: status "error", a status code and the offending field. */
  function ErrorResponse(code: string, field: string): Obj
  {
    map["status" := VStr("error"), "status_code" := VCode(code), "field" := VStr(field)]
  }

  /**
   * The JSONArray a request value denotes: the array itself, or the text
   * parsed as a JSON array; None when the text does not parse to an array.
   */
  function ArrayOf(parse: string -> Option<Value>, v: Value): Option<seq<Value>>
  {
    match v
    case VArr(items) => Some(items)
    case VStr(s) => (match parse(s) case Some(VArr(items)) => Some(items) case _ => None)
    case _ => None
  }

  /**
   * parseJSONArray: status "ok" with the array as "result" when the value
   * is, or parses to, a non-empty array; INCORRECT_FIELD_VALUE when a string
   * does not parse to an array; FIELD_IS_EMPTY otherwise. Errors always name
   * the field "fields".
   */
  function ParseJSONArray(parse: string -> Option<Value>, v: Value): (r: Obj)
    ensures Get(r, "status") == VStr("ok") <==> ArrayOf(parse, v).Some? && |ArrayOf(parse, v).value| > 0
    ensures Get(r, "status") == VStr("ok") ==>
      r == map["status" := VStr("ok"), "status_code" := VCode("RESULT_OK"), "result" := VArr(ArrayOf(parse, v).value)]
    ensures v.VArr? && Get(r, "status") == VStr("ok") ==> r["result"] == v
    ensures v.VStr? && ArrayOf(parse, v).None? ==> r == ErrorResponse("RESULT_ERROR_INCORRECT_FIELD_VALUE", "fields")
    ensures (!v.VStr? || ArrayOf(parse, v).Some?) && Get(r, "status") != VStr("ok") ==>
      r == ErrorResponse("RESULT_ERROR_FIELD_IS_EMPTY", "fields")
  {
    var field :=
      if v.VStr? then
        (match parse(v.s) case Some(VArr(items)) => Some(Some(items)) case _ => None)
      else if v.VArr? then Some(Some(v.items))
      else Some(None);
    if field.None? then
      ErrorResponse(ParseCodeName(RESULT_ERROR_INCORRECT_FIELD_VALUE), "fields")
    else if field.value.None? || |field.value.value| == 0 then
      ErrorResponse(ParseCodeName(RESULT_ERROR_FIELD_IS_EMPTY), "fields")
    else
      map["status" := VStr("ok"), "status_code" := VCode(ParseCodeName(RESULT_OK)), "result" := VArr(field.value.value)]
  }

  /** parseJSONArrayFromRequest: parseJSONArray applied to `request[fieldName]`. */
  function ParseJSONArrayFromRequest(parse: string -> Option<Value>, request: Obj, fieldName: string): (r: Obj)
    ensures fieldName !in request ==> r == ErrorResponse("RESULT_ERROR_FIELD_IS_EMPTY", "fields")
    ensures Get(r, "status") == VStr("ok") ==> fieldName in request && Get(r, "result") != VArr([])
  {
    ParseJSONArray(parse, Get(request, fieldName))
  }

  /**
   * toJSONObject: a JSONObject as it is, a string parsed to an object, and
   * null for anything else (including text that does not parse to an object).
   */
  function ToJSONObject(parse: string -> Option<Value>, v: Value): (r: Option<Obj>)
    ensures v.VObj? ==> r == Some(v.fields)
    ensures !v.VStr? && !v.VObj? ==> r.None?
    ensures v.VStr? ==> (r.Some? <==> parse(v.s).Some? && parse(v.s).value.VObj?)
    ensures v.VStr? && r.Some? ==> parse(v.s) == Some(VObj(r.value))
  {
    match v
    case VObj(fields) => Some(fields)
    case VStr(s) => (match parse(s) case Some(VObj(fields)) => Some(fields) case _ => None)
    case _ => None
  }

  /** What `toJSONString` stores for one value: strings, numbers and booleans unchanged, anything else as its text. */
  function StringifyValue(v: Value): (r: Value)
    ensures IsPrimitive(r)
    ensures IsPrimitive(v) ==> r == v
  {
    if IsPrimitive(v) then v else VStr(Text(v))
  }

  /** The object after `toJSONString` has rewritten it. */
  function Stringify(o: Obj): (r: Obj)
  {
    map k | k in o :: StringifyValue(o[k])
  }

  /** After `toJSONString` the object has the same keys, only primitive values, and a second pass changes nothing. */
  lemma StringifyProperties(o: Obj)
    ensures Stringify(o).Keys == o.Keys
    ensures forall k :: k in o ==> IsPrimitive(Stringify(o)[k])
    ensures forall k :: k in o && IsPrimitive(o[k]) ==> Stringify(o)[k] == o[k]
    ensures Stringify(Stringify(o)) == Stringify(o)
  {
  }

  /** A mutable JSONObject. */
  class JsonObject {
    var fields: Obj

    constructor (fields: Obj)
      ensures this.fields == fields
    {
      this.fields := fields;
    }
  }

  /**
   * toJSONString rewrites, in place, every value that is not a String, Int,
   * Long or Boolean into its text. The serialised text itself is not modelled.
   */
  method ToJSONString(response: JsonObject)
    modifies response
    ensures response.fields == Stringify(old(response.fields))
  {
    ghost var original := response.fields;
    var pending := response.fields.Keys;
    while pending != {}
      invariant pending <= original.Keys
      invariant response.fields.Keys == original.Keys
      invariant forall k :: k in original && k !in pending ==> response.fields[k] == StringifyValue(original[k])
      invariant forall k :: k in pending ==> response.fields[k] == original[k]
      decreases pending
    {
      var key :| key in pending;
      var value := response.fields[key];
      if !IsPrimitive(value) {
        response.fields := response.fields[key := VStr(Text(value))];
      }
      pending := pending - {key};
    }
  }
}
