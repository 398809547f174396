/**
 * AdminController.prepareListQuery: the validation of the list options of
 * an admin list action (fields, filter, offset, limit, sort, get_total,
 * get_presentations) and the query it hands to DBCollection.getListJSON.
 * Each option is checked in that order and the first failure is answered
 * with an error naming the option.
 */
module AdminListQueries {
  import opened Wrappers
  import opened Strings
  import opened Json
  import opened Platform
  import opened Queries
  import opened AdminResults

  /** The verdict on one option: not given, accepted with the value to query by, or refused with a code. */
  datatype Check<T> = Absent | Pass(value: T) | Fail(code: AdminCode)

  /** The verdict on "sort": refused with a code, or with none when the sort object is empty. */
  datatype SortCheck = SortAbsent | SortFail(code: Option<AdminCode>) | SortPass(entries: Obj)

  const QUERY_KEYS: set<string> := {"get_total", "get_presentations", "fields", "filter", "offset", "limit"}

  /** The keys of a query and of an error response are apart. */
  lemma KeysApart()
    ensures QUERY_KEYS !! {"sort", "status", "status_code", "field"}
    ensures "sort" != "status" && "sort" != "status_code" && "sort" != "field"
    ensures "limit" != "offset" && "limit" != "filter" && "limit" != "fields" && "limit" != "sort"
    ensures "offset" != "filter" && "offset" != "fields" && "offset" != "sort" && "filter" != "fields"
    ensures "filter" != "sort" && "fields" != "sort"
    ensures "get_total" != "get_presentations"
    ensures {"get_total", "get_presentations"} !! {"limit", "offset", "filter", "fields", "sort"}
  {
  }

  /**
   * "fields": a string must parse to a JSON array and an array is taken as
   * it is (anything else is INCORRECT_FIELD_VALUE); an empty list is
   * FIELD_IS_EMPTY.
   */
  function FieldsCheck(env: Env, request: Obj): (r: Check<seq<Value>>)
    ensures r.Absent? <==> "fields" !in request
    ensures r == Fail(IncorrectValue) <==> "fields" in request && ArrayOf(env.parse, request["fields"]).None?
    ensures r.Pass? ==> ArrayOf(env.parse, request["fields"]) == Some(r.value) && |r.value| > 0
    ensures r.Fail? ==> r.code in {IncorrectValue, FieldEmpty}
  {
    if "fields" !in request then Absent
    else match ArrayOf(env.parse, request["fields"])
      case None => Fail(IncorrectValue)
      case Some(items) => if Text(request["fields"]) == "" || |items| == 0 then Fail(FieldEmpty) else Pass(items)
  }

  /** "filter": blank is FIELD_IS_EMPTY; otherwise the trimmed text. */
  function FilterCheck(request: Obj): (r: Check<string>)
    ensures r.Absent? <==> "filter" !in request
    ensures r.Fail? <==> "filter" in request && IsBlank(Text(request["filter"]))
    ensures r.Fail? ==> r.code == FieldEmpty
    ensures r.Pass? ==> r.value == Trim(Text(request["filter"])) && r.value != ""
  {
    if "filter" !in request then Absent
    else if Trim(Text(request["filter"])) == "" then Fail(FieldEmpty)
    else Pass(Trim(Text(request["filter"])))
  }

  /** "offset": blank is FIELD_IS_EMPTY, text that is not an Int is INCORRECT_FIELD_VALUE; any Int is accepted. */
  function OffsetCheck(request: Obj): (r: Check<int>)
    ensures r.Absent? <==> "offset" !in request
    ensures r == Fail(FieldEmpty) <==> "offset" in request && IsBlank(Text(request["offset"]))
    ensures r == Fail(IncorrectValue) <==>
      "offset" in request && !IsBlank(Text(request["offset"])) && ParseInt(Trim(Text(request["offset"]))).None?
    ensures r.Pass? ==> ParseInt(Trim(Text(request["offset"]))) == Some(r.value)
  {
    if "offset" !in request then Absent
    else if Trim(Text(request["offset"])) == "" then Fail(FieldEmpty)
    else match ParseInt(Trim(Text(request["offset"])))
      case None => Fail(IncorrectValue)
      case Some(n) => Pass(n)
  }

  /**
   * "limit": text that is not an Int is INCORRECT_FIELD_VALUE, and so is a
   * blank limit (its FIELD_IS_EMPTY is overwritten because the limit then
   * stays 0). A limit of 0 or less is accepted.
   */
  function LimitCheck(request: Obj): (r: Check<int>)
    ensures r.Absent? <==> "limit" !in request
    ensures r.Fail? <==> "limit" in request && ParseInt(Trim(Text(request["limit"]))).None?
    ensures r.Fail? ==> r.code == IncorrectValue
    ensures "limit" in request && IsBlank(Text(request["limit"])) ==> r == Fail(IncorrectValue)
    ensures r.Pass? ==> ParseInt(Trim(Text(request["limit"]))) == Some(r.value)
  {
    if "limit" !in request then Absent
    else match ParseInt(Trim(Text(request["limit"])))
      case None => Fail(IncorrectValue)
      case Some(n) => Pass(n)
  }

  /**
   * The code an accepted limit of 0 or less leaves in the error object; it
   * reaches the client only when "sort" then fails without a code of its own.
   */
  function LimitCarry(request: Obj): (r: Option<AdminCode>)
    ensures r.Some? <==> LimitCheck(request).Pass? && LimitCheck(request).value <= 0
    ensures r.Some? ==> r.value == IncorrectValue
  {
    match LimitCheck(request)
    case Pass(n) => if n <= 0 then Some(IncorrectValue) else None
    case _ => None
  }

  /** A sort direction: the value's text is ASC or DESC. */
  predicate Direction(v: Value)
  {
    Text(v) == "ASC" || Text(v) == "DESC"
  }

  /**
   * `parser.parse(request["sort"].toString()) as JSONObject`: an object is
   * written out as JSON text that parses back to the same object; any other
   * value's text goes to the parser.
   */
  function SortObject(env: Env, v: Value): Option<Obj>
  {
    if v.VObj? then Some(v.fields) else ToJSONObject(env.parse, VStr(Text(v)))
  }

  /**
   * "sort": empty text is FIELD_IS_EMPTY; text that does not parse to a
   * JSON object is INCORRECT_FIELD_VALUE; an empty object fails with no code
   * of its own; any direction other than ASC or DESC is
   * INCORRECT_FIELD_VALUE.
   */
  function SortCheckOf(env: Env, request: Obj): (r: SortCheck)
    ensures r.SortAbsent? <==> "sort" !in request
    ensures "sort" in request && Text(request["sort"]) == "" ==> r == SortFail(Some(FieldEmpty))
    ensures r == SortFail(None) <==>
      "sort" in request && Text(request["sort"]) != "" && SortObject(env, request["sort"]) == Some(map[])
    ensures r.SortPass? ==> |r.entries| > 0 && forall k :: k in r.entries ==> Direction(r.entries[k])
    ensures r.SortPass? ==> SortObject(env, request["sort"]) == Some(r.entries)
    ensures r.SortFail? && r.code.Some? ==> r.code.value in {FieldEmpty, IncorrectValue}
    ensures "sort" in request && request["sort"].VObj? ==>
      var m := request["sort"].fields;
      (r.SortPass? <==> |m| > 0 && forall k :: k in m ==> Direction(m[k])) && (r.SortPass? ==> r.entries == m)
  {
    if "sort" !in request then SortAbsent
    else if Text(request["sort"]) == "" then SortFail(Some(FieldEmpty))
    else match SortObject(env, request["sort"])
      case None => SortFail(Some(IncorrectValue))
      case Some(m) =>
        if |m| == 0 then SortFail(None)
        else if exists k :: k in m && !Direction(m[k]) then SortFail(Some(IncorrectValue))
        else SortPass(m)
  }

  /** The error object of a failed sort: status "error", field "sort", and the code when there is one. */
  function SortFailure(code: Option<AdminCode>): (r: Obj)
    ensures code.Some? ==> r == AdminError(code.value, "sort")
    ensures code.None? ==> r == map["status" := VStr("error"), "field" := VStr("sort")]
  {
    var result := if code.Some? then map["status_code" := VCode(AdminCodeName(code.value))] else map[];
    result["status" := VStr("error")]["field" := VStr("sort")]
  }

  /**
   * The error prepareListQuery answers, if any: the first refused option
   * in the order fields, filter, offset, limit, sort.
   */
  function ListQueryError(env: Env, request: Obj): (r: Option<Obj>)
    ensures r.Some? ==> Get(r.value, "status") == VStr("error") && "field" in r.value
    ensures r.None? <==>
      !FieldsCheck(env, request).Fail? && !FilterCheck(request).Fail? && !OffsetCheck(request).Fail? &&
      !LimitCheck(request).Fail? && !SortCheckOf(env, request).SortFail?
    ensures FieldsCheck(env, request).Fail? ==> r == Some(AdminError(FieldsCheck(env, request).code, "fields"))
  {
    if OptionsError(env, request).Some? then OptionsError(env, request)
    else match SortCheckOf(env, request)
      case SortFail(code) => Some(SortFailure(if code.Some? then code else LimitCarry(request)))
      case _ => None
  }

  /** The error of the first refused option before "sort", if any. */
  function OptionsError(env: Env, request: Obj): (r: Option<Obj>)
    ensures r.None? <==>
      !FieldsCheck(env, request).Fail? && !FilterCheck(request).Fail? && !OffsetCheck(request).Fail? && !LimitCheck(request).Fail?
  {
    if FieldsCheck(env, request).Fail? then Some(AdminError(FieldsCheck(env, request).code, "fields"))
    else if FilterCheck(request).Fail? then Some(AdminError(FilterCheck(request).code, "filter"))
    else if OffsetCheck(request).Fail? then Some(AdminError(OffsetCheck(request).code, "offset"))
    else if LimitCheck(request).Fail? then Some(AdminError(LimitCheck(request).code, "limit"))
    else None
  }

  // ------------------------------------------------------------ the query

  /** `q[key] = v` for a value that is there, and q as it is for none (VNull). */
  function Put(q: Obj, key: string, v: Value): (r: Obj)
    ensures Get(r, key) == (if v == VNull then Get(q, key) else v)
    ensures forall k :: k != key ==> Get(r, k) == Get(q, k)
    ensures r.Keys <= q.Keys + {key}
  {
    if v == VNull then q else q[key := v]
  }

  /** The value a flag puts in the query: true when the request has the key at all. */
  function FlagEntry(request: Obj, key: string): Value
  {
    if key in request then VBool(true) else VNull
  }

  function FieldsEntry(env: Env, request: Obj): Value
  {
    match FieldsCheck(env, request) case Pass(items) => VArr(items) case _ => VNull
  }

  function FilterEntry(request: Obj): Value
  {
    match FilterCheck(request) case Pass(s) => VStr(s) case _ => VNull
  }

  function IntEntry(c: Check<int>): Value
  {
    match c case Pass(n) => VInt(n) case _ => VNull
  }

  /** get_total and get_presentations, set to true when the request has them at all. */
  function Flags(request: Obj): (q: Obj)
    ensures Get(q, "get_total") == FlagEntry(request, "get_total")
    ensures Get(q, "get_presentations") == FlagEntry(request, "get_presentations")
  {
    KeysApart();
    Put(Put(map[], "get_total", FlagEntry(request, "get_total")), "get_presentations", FlagEntry(request, "get_presentations"))
  }

  /**
   * The query of an accepted request without its sort: the flags and the
   * accepted fields, filter, offset and limit. It never holds "status", by
   * which callers tell it from an error.
   */
  function BaseQuery(env: Env, request: Obj): (q: Obj)
    ensures q.Keys <= QUERY_KEYS
  {
    var q := Put(Flags(request), "fields", FieldsEntry(env, request));
    var q := Put(q, "filter", FilterEntry(request));
    var q := Put(q, "offset", IntEntry(OffsetCheck(request)));
    Put(q, "limit", IntEntry(LimitCheck(request)))
  }

  /** The query with the chosen sort pair, when there is one. */
  function Prepared(env: Env, request: Obj, sort: Option<(string, string)>): (q: Obj)
    ensures "status" !in q
  {
    KeysApart();
    var base := BaseQuery(env, request);
    if sort.Some? then base["sort" := VPair(sort.value.0, sort.value.1)] else base
  }

  /** The value an accepted option leaves in the parameters getList reads, or its default. */
  function Accepted<T>(c: Check<T>, default: T): T
  {
    if c.Pass? then c.value else default
  }

  /** The options of the request as accepted: defaults for the absent ones. */
  function AcceptedParams(env: Env, request: Obj, sort: Option<(string, string)>): ListParams
  {
    ListParams(
      Accepted(FilterCheck(request), ""),
      if FieldsCheck(env, request).Pass? then Some(FieldsCheck(env, request).value) else None,
      Accepted(LimitCheck(request), 0),
      Accepted(OffsetCheck(request), 0),
      sort,
      "get_total" in request,
      "get_presentations" in request)
  }

  /** The numbers of the base query: offset and limit as accepted. */
  lemma BaseNumbers(env: Env, request: Obj)
    ensures Get(BaseQuery(env, request), "limit") == IntEntry(LimitCheck(request))
    ensures Get(BaseQuery(env, request), "offset") == IntEntry(OffsetCheck(request))
  {
    KeysApart();
    var q1 := Put(Flags(request), "fields", FieldsEntry(env, request));
    var q2 := Put(q1, "filter", FilterEntry(request));
    var q3 := Put(q2, "offset", IntEntry(OffsetCheck(request)));
    assert Put(q3, "limit", IntEntry(LimitCheck(request))) == BaseQuery(env, request);
  }

  /** The texts of the base query: filter and fields as accepted. */
  lemma BaseTexts(env: Env, request: Obj)
    ensures Get(BaseQuery(env, request), "filter") == FilterEntry(request)
    ensures Get(BaseQuery(env, request), "fields") == FieldsEntry(env, request)
  {
    KeysApart();
    var q1 := Put(Flags(request), "fields", FieldsEntry(env, request));
    var q2 := Put(q1, "filter", FilterEntry(request));
    var q3 := Put(q2, "offset", IntEntry(OffsetCheck(request)));
    assert Put(q3, "limit", IntEntry(LimitCheck(request))) == BaseQuery(env, request);
    assert Get(q2, "fields") == FieldsEntry(env, request);
  }

  /** The flags of the base query. */
  lemma BaseFlags(env: Env, request: Obj)
    ensures Get(BaseQuery(env, request), "get_total") == FlagEntry(request, "get_total")
    ensures Get(BaseQuery(env, request), "get_presentations") == FlagEntry(request, "get_presentations")
  {
    KeysApart();
    var q0 := Flags(request);
    var q1 := Put(q0, "fields", FieldsEntry(env, request));
    var q2 := Put(q1, "filter", FilterEntry(request));
    var q3 := Put(q2, "offset", IntEntry(OffsetCheck(request)));
    assert Put(q3, "limit", IntEntry(LimitCheck(request))) == BaseQuery(env, request);
  }

  /** The prepared query is the base query with the sort pair under "sort". */
  lemma PreparedSort(env: Env, request: Obj, sort: Option<(string, string)>)
    ensures Get(Prepared(env, request, sort), "sort") == (if sort.Some? then VPair(sort.value.0, sort.value.1) else VNull)
    ensures forall k :: k != "sort" ==> Get(Prepared(env, request, sort), k) == Get(BaseQuery(env, request), k)
  {
    KeysApart();
  }

  /**
   * getList reads back from the prepared query exactly the options that
   * were accepted: the trimmed filter, the field list, offset and limit as
   * parsed, the sort pair and the two flags.
   */
  lemma QueryReadBack(env: Env, request: Obj, sort: Option<(string, string)>)
    ensures ReadParams(Prepared(env, request, sort)) == Ok(AcceptedParams(env, request, sort))
  {
    var q, p := Prepared(env, request, sort), AcceptedParams(env, request, sort);
    NumbersReadBack(env, request, sort);
    TextsReadBack(env, request, sort);
    FlagsReadBack(env, request, sort);
    ReadParamsFrom(q, p);
  }

  /** getList's reading of a query whose entries each give the matching part of p. */
  lemma ReadParamsFrom(q: Obj, p: ListParams)
    requires IntParam(q, "limit") == Ok(p.limit) && IntParam(q, "offset") == Ok(p.offset)
    requires (if Get(q, "filter") == VNull then "" else Text(Get(q, "filter"))) == p.filter
    requires (if Get(q, "fields").VArr? then Some(Get(q, "fields").items) else None) == p.fields
    requires (if Get(q, "sort").VPair? then Some((Get(q, "sort").first, Get(q, "sort").second)) else None) == p.sort
    requires (Get(q, "get_total") != VNull) == p.getTotal && (Get(q, "get_presentations") != VNull) == p.getPresentations
    ensures ReadParams(q) == Ok(p)
  {
  }

  /** The prepared query gives back the accepted limit and offset. */
  lemma NumbersReadBack(env: Env, request: Obj, sort: Option<(string, string)>)
    ensures IntParam(Prepared(env, request, sort), "limit") == Ok(AcceptedParams(env, request, sort).limit)
    ensures IntParam(Prepared(env, request, sort), "offset") == Ok(AcceptedParams(env, request, sort).offset)
  {
    KeysApart();
    PreparedSort(env, request, sort);
    BaseNumbers(env, request);
    IntReadBack(Prepared(env, request, sort), LimitCheck(request), "limit");
    IntReadBack(Prepared(env, request, sort), OffsetCheck(request), "offset");
  }

  /** The prepared query gives back the accepted filter, field list and sort pair. */
  lemma TextsReadBack(env: Env, request: Obj, sort: Option<(string, string)>)
    ensures var q, p := Prepared(env, request, sort), AcceptedParams(env, request, sort);
      (if Get(q, "filter") == VNull then "" else Text(Get(q, "filter"))) == p.filter &&
      (if Get(q, "fields").VArr? then Some(Get(q, "fields").items) else None) == p.fields &&
      (if Get(q, "sort").VPair? then Some((Get(q, "sort").first, Get(q, "sort").second)) else None) == p.sort
  {
    KeysApart();
    PreparedSort(env, request, sort);
    BaseTexts(env, request);
  }

  /** The prepared query gives back the two flags. */
  lemma FlagsReadBack(env: Env, request: Obj, sort: Option<(string, string)>)
    ensures var q, p := Prepared(env, request, sort), AcceptedParams(env, request, sort);
      (Get(q, "get_total") != VNull) == p.getTotal && (Get(q, "get_presentations") != VNull) == p.getPresentations
  {
    KeysApart();
    PreparedSort(env, request, sort);
    BaseFlags(env, request);
  }

  /** An accepted Int option is read back by getList as the same number, and a missing one as 0. */
  lemma IntReadBack(q: Obj, c: Check<int>, key: string)
    requires Get(q, key) == IntEntry(c)
    requires c.Pass? ==> IsInt32(c.value)
    ensures IntParam(q, key) == Ok(Accepted(c, 0))
  {
    if c.Pass? {
      ParseIntText(c.value);
    }
  }

  // ---------------------------------------------------- prepareListQuery

  /**
   * prepareListQuery: the error object of the first refused option, or the
   * query. With several sort entries the pair kept is the last one visited
   * in the object's iteration order, so the result names some entry of the
   * sort object.
   */
  method PrepareListQuery(env: Env, request: Obj) returns (r: Obj)
    ensures ListQueryError(env, request).Some? ==> r == ListQueryError(env, request).value
    ensures ListQueryError(env, request).None? && !SortCheckOf(env, request).SortPass? ==> r == Prepared(env, request, None)
    ensures ListQueryError(env, request).None? && SortCheckOf(env, request).SortPass? ==>
      var m := SortCheckOf(env, request).entries;
      exists k :: k in m && r == Prepared(env, request, Some((k, Text(m[k]))))
  {
    var query, carried, failure := OptionSteps(env, request);
    if failure.Some? {
      return failure.value;
    }
    r := SortStep(env, request, query, carried);
  }

  /** The options before "sort", in their order: the error of the first refused one, or the query and the carried code. */
  method OptionSteps(env: Env, request: Obj) returns (query: Obj, carried: Option<AdminCode>, failure: Option<Obj>)
    ensures failure == OptionsError(env, request)
    ensures failure.None? ==> query == BaseQuery(env, request) && carried == LimitCarry(request)
  {
    carried := None;
    query := FlagsStep(request);
    query, failure := FieldsStep(env, request, query);
    if failure.Some? {
      return;
    }
    query, failure := FilterStep(request, query);
    if failure.Some? {
      return;
    }
    query, failure := OffsetStep(request, query);
    if failure.Some? {
      return;
    }
    query, carried, failure := LimitStep(request, query);
  }

  /** get_total and get_presentations, set to true when the request has them. */
  method FlagsStep(request: Obj) returns (query: Obj)
    ensures query == Flags(request)
  {
    query := map[];
    if "get_total" in request {
      query := query["get_total" := VBool(true)];
    }
    if "get_presentations" in request {
      query := query["get_presentations" := VBool(true)];
    }
  }

  /** The "fields" part of prepareListQuery. */
  method FieldsStep(env: Env, request: Obj, query: Obj) returns (query': Obj, failure: Option<Obj>)
    ensures FieldsCheck(env, request).Fail? ==> failure == Some(AdminError(FieldsCheck(env, request).code, "fields"))
    ensures !FieldsCheck(env, request).Fail? ==> failure.None? && query' == Put(query, "fields", FieldsEntry(env, request))
  {
    query', failure := query, None;
    if "fields" in request {
      var fields := ArrayOf(env.parse, request["fields"]);
      if fields.None? {
        return query, Some(AdminError(IncorrectValue, "fields"));
      }
      if Text(request["fields"]) == "" || |fields.value| == 0 {
        return query, Some(AdminError(FieldEmpty, "fields"));
      }
      query' := query["fields" := VArr(fields.value)];
    }
  }

  /** The "filter" part of prepareListQuery. */
  method FilterStep(request: Obj, query: Obj) returns (query': Obj, failure: Option<Obj>)
    ensures FilterCheck(request).Fail? ==> failure == Some(AdminError(FieldEmpty, "filter"))
    ensures !FilterCheck(request).Fail? ==> failure.None? && query' == Put(query, "filter", FilterEntry(request))
  {
    query', failure := query, None;
    if "filter" in request && Trim(Text(request["filter"])) == "" {
      failure := Some(AdminError(FieldEmpty, "filter"));
    } else if "filter" in request {
      query' := query["filter" := VStr(Trim(Text(request["filter"])))];
    }
  }

  /** The "offset" part of prepareListQuery. */
  method OffsetStep(request: Obj, query: Obj) returns (query': Obj, failure: Option<Obj>)
    ensures OffsetCheck(request).Fail? ==> failure == Some(AdminError(OffsetCheck(request).code, "offset"))
    ensures !OffsetCheck(request).Fail? ==> failure.None? && query' == Put(query, "offset", IntEntry(OffsetCheck(request)))
  {
    hide IsBlank, Trim;
    query', failure := query, None;
    if "offset" in request {
      var offset := 0;
      var offsetFailure := false;
      var code := AdminOk;
      var text := Trim(Text(request["offset"]));
      if text == "" {
        offsetFailure, code := true, FieldEmpty;
      } else {
        var parsed := ParseInt(text);
        if parsed.None? {
          offsetFailure, code := true, IncorrectValue;
        } else {
          offset := parsed.value;
        }
      }
      if offsetFailure {
        return query, Some(AdminError(code, "offset"));
      }
      query' := query["offset" := VInt(offset)];
    }
  }

  /**
   * The "limit" part of prepareListQuery. `carried` is the status_code the
   * limit leaves in the error object: the code of a limit of 0 or less
   * stays there.
   */
  method LimitStep(request: Obj, query: Obj) returns (query': Obj, carried: Option<AdminCode>, failure: Option<Obj>)
    ensures LimitCheck(request).Fail? ==> failure == Some(AdminError(IncorrectValue, "limit"))
    ensures !LimitCheck(request).Fail? ==> failure.None? && query' == Put(query, "limit", IntEntry(LimitCheck(request))) && carried == LimitCarry(request)
  {
    hide IsBlank, Trim;
    query', carried, failure := query, None, None;
    if "limit" in request {
      var limit := 0;
      var limitFailure := false;
      var text := Trim(Text(request["limit"]));
      if text == "" {
        limitFailure, carried := true, Some(FieldEmpty);
      } else {
        var parsed := ParseInt(text);
        if parsed.None? {
          limitFailure, carried := true, Some(IncorrectValue);
        } else {
          limit := parsed.value;
        }
      }
      if limit <= 0 {
        carried := Some(IncorrectValue);
      }
      if limitFailure {
        return query, carried, Some(AdminError(carried.value, "limit"));
      }
      query' := query["limit" := VInt(limit)];
    }
  }

  /**
   * The "sort" part of prepareListQuery: checks every entry of the sort
   * object, in its iteration order, and keeps the pair of the last good
   * one; on failure answers the error object with its own code, or else
   * the one the limit carried.
   */
  method SortStep(env: Env, request: Obj, query: Obj, carried: Option<AdminCode>) returns (r: Obj)
    ensures SortCheckOf(env, request).SortFail? ==>
      var code := SortCheckOf(env, request).code;
      r == SortFailure(if code.Some? then code else carried)
    ensures SortCheckOf(env, request).SortAbsent? ==> r == query
    ensures SortCheckOf(env, request).SortPass? ==>
      var m := SortCheckOf(env, request).entries;
      exists k :: k in m && r == query["sort" := VPair(k, Text(m[k]))]
  {
    if "sort" !in request {
      return query;
    }
    var failedSort := false;
    var code := carried;
    if Text(request["sort"]) == "" {
      failedSort, code := true, Some(FieldEmpty);
    } else {
      var sort := map[];
      var parsed := SortObject(env, request["sort"]);
      if parsed.None? {
        failedSort, code := true, Some(IncorrectValue);
      } else {
        sort := parsed.value;
      }
      if |sort| == 0 {
        failedSort := true;
      } else {
        var bad, pair := SortEntries(sort);
        if bad {
          return SortFailure(Some(IncorrectValue));
        }
        return query["sort" := VPair(pair.0, pair.1)];
      }
    }
    r := SortFailure(code);
  }

  /**
   * The loop over the sort object: whether some direction is neither ASC
   * nor DESC, and the pair of the last good entry visited.
   */
  method SortEntries(sort: Obj) returns (bad: bool, pair: (string, string))
    requires |sort| > 0
    ensures bad <==> exists k :: k in sort && !Direction(sort[k])
    ensures !bad ==> pair.0 in sort && pair.1 == Text(sort[pair.0])
  {
    bad := false;
    var found := false;
    pair := ("", "");
    var pending := sort.Keys;
    while pending != {}
      invariant pending <= sort.Keys
      invariant bad <==> exists k :: k in sort && k !in pending && !Direction(sort[k])
      invariant found ==> pair.0 in sort && pair.1 == Text(sort[pair.0])
      invariant !found ==> forall k :: k in sort && k !in pending ==> !Direction(sort[k])
      decreases pending
    {
      var k :| k in pending;
      if !Direction(sort[k]) {
        bad := true;
      } else {
        pair := (k, Text(sort[k]));
        found := true;
      }
      pending := pending - {k};
    }
  }

  // ------------------------------------------------------------ properties

  /**
   * A limit of 0 or less is not refused by itself, but when the sort object
   * then turns out empty the sort error carries the limit's
   * INCORRECT_FIELD_VALUE.
   */
  lemma LimitCodeReachesSort(env: Env, request: Obj)
    requires ListQueryError(env, request).Some?
    requires !FieldsCheck(env, request).Fail? && !FilterCheck(request).Fail? && !OffsetCheck(request).Fail?
    requires LimitCheck(request).Pass? && LimitCheck(request).value <= 0
    requires SortCheckOf(env, request) == SortFail(None)
    ensures ListQueryError(env, request) == Some(AdminError(IncorrectValue, "sort"))
  {
  }

  /** An empty sort object after an accepted positive limit (or none) fails without any status_code. */
  lemma EmptySortHasNoCode(env: Env, request: Obj)
    requires !FieldsCheck(env, request).Fail? && !FilterCheck(request).Fail? && !OffsetCheck(request).Fail?
    requires !LimitCheck(request).Fail? && LimitCarry(request).None?
    requires SortCheckOf(env, request) == SortFail(None)
    ensures ListQueryError(env, request).Some? && "status_code" !in ListQueryError(env, request).value
  {
  }
}
