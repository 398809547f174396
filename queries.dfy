/**
 * The pure side of interactors/DBCollection.kt: looking models up by `_id`
 * or by a field value, the text filter, the sort comparator, the stable
 * sort and the paging of getList, and the JSON rows of getListJSON.
 */
module Queries {
  import opened Wrappers
  import opened Strings
  import opened Json
  import opened DBModels

  /** An element of a getList result: a model, or the total count appended at the end. */
  datatype Item = Model(doc: Doc) | Total(count: int)

  // ---------------------------------------------------------------- lookup

  /** `model["_id"].toString()`. */
  function IdText(d: Doc): string
  {
    Text(Get(d, ID))
  }

  /** The index of the first model whose `_id` text is `id`, or |models| when there is none. */
  function FirstId(models: seq<Doc>, id: string): (i: nat)
    ensures i <= |models|
    ensures forall j :: 0 <= j < i ==> IdText(models[j]) != id
    ensures i < |models| ==> IdText(models[i]) == id
  {
    if models == [] then 0
    else if IdText(models[0]) == id then 0
    else 1 + FirstId(models[1..], id)
  }

  /**
   * The position of the model getById returns: the model whose `_id` text is
   * `id`, when exactly one model has it; None when none or several do.
   */
  function IndexById(models: seq<Doc>, id: string): (r: Option<nat>)
    ensures r.Some? ==> r.value < |models| && IdText(models[r.value]) == id
    ensures r.Some? ==> forall j :: 0 <= j < |models| && j != r.value ==> IdText(models[j]) != id
    ensures r.None? ==> forall i :: 0 <= i < |models| && IdText(models[i]) == id ==>
      exists j :: 0 <= j < |models| && j != i && IdText(models[j]) == id
  {
    var i := FirstId(models, id);
    if i == |models| then None
    else
      var rest := FirstId(models[i + 1..], id);
      if rest == |models| - i - 1 then
        assert forall j :: i < j < |models| ==> models[j] == models[i + 1..][j - i - 1];
        Some(i)
      else
        assert IdText(models[i + 1 + rest]) == id;
        None
  }

  /** getById: the one model whose `_id` text is `id`. */
  function ById(models: seq<Doc>, id: string): (r: Option<Doc>)
    ensures r.Some? <==> IndexById(models, id).Some?
    ensures r.Some? ==> r.value == models[IndexById(models, id).value] && IdText(r.value) == id
  {
    match IndexById(models, id)
    case Some(i) => Some(models[i])
    case None => None
  }

  /** The models whose `field` equals `value`, in collection order. */
  function Where(models: seq<Doc>, field: string, value: Value): (r: seq<Doc>)
    ensures |r| <= |models|
    ensures forall d :: d in r <==> d in models && Get(d, field) == value
  {
    if models == [] then []
    else (if Get(models[0], field) == value then [models[0]] else []) + Where(models[1..], field, value)
  }

  /** The first element of Where is the first matching model. */
  lemma {:induction false} WhereFirst(models: seq<Doc>, field: string, value: Value)
    requires Where(models, field, value) != []
    ensures exists i :: (0 <= i < |models| && models[i] == Where(models, field, value)[0] &&
      Get(models[i], field) == value && forall j :: 0 <= j < i ==> Get(models[j], field) != value)
  {
    if Get(models[0], field) != value {
      var rest := models[1..];
      assert Where(models, field, value) == Where(rest, field, value);
      WhereFirst(rest, field, value);
      var i :| 0 <= i < |rest| && rest[i] == Where(rest, field, value)[0] &&
        Get(rest[i], field) == value && forall j :: 0 <= j < i ==> Get(rest[j], field) != value;
      assert models[i + 1] == rest[i];
      forall j | 0 <= j < i + 1 ensures Get(models[j], field) != value {
        if j > 0 {
          assert models[j] == rest[j - 1];
        }
      }
    } else {
      assert models[0] == Where(models, field, value)[0];
    }
  }

  /** getListBy: the matching models, or null when no model matches. */
  function ListBy(models: seq<Doc>, field: string, value: Value): (r: Option<seq<Doc>>)
    ensures r.None? <==> forall d :: d in models ==> Get(d, field) != value
    ensures r.Some? ==> |r.value| > 0 && forall d :: d in r.value <==> d in models && Get(d, field) == value
  {
    var found := Where(models, field, value);
    assert |found| > 0 ==> found[0] in found;
    if |found| > 0 then Some(found) else None
  }

  /** getBy: the first model whose `field` equals `value`. */
  function By(models: seq<Doc>, field: string, value: Value): (r: Option<Doc>)
    ensures r.None? <==> forall d :: d in models ==> Get(d, field) != value
    ensures r.Some? ==> exists i :: (0 <= i < |models| && models[i] == r.value &&
      Get(models[i], field) == value && forall j :: 0 <= j < i ==> Get(models[j], field) != value)
  {
    match ListBy(models, field, value)
    case None => None
    case Some(found) => WhereFirst(models, field, value); Some(found[0])
  }

  /** Every model has an `_id`, and no two share its text. */
  predicate Keyed(models: seq<Doc>)
  {
    (forall i :: 0 <= i < |models| ==> ID in models[i]) &&
    (forall i, j :: 0 <= i < j < |models| ==> IdText(models[i]) != IdText(models[j]))
  }

  /** In a keyed collection getById finds every model by its own `_id`. */
  lemma ByIdFindsEach(models: seq<Doc>, k: nat)
    requires Keyed(models) && k < |models|
    ensures IndexById(models, IdText(models[k])) == Some(k)
  {
  }

  /** In a keyed collection two models with the same `_id` text are the same model. */
  lemma KeyedSameId(models: seq<Doc>, a: Doc, b: Doc)
    requires Keyed(models) && a in models && b in models && IdText(a) == IdText(b)
    ensures a == b
  {
    var i :| 0 <= i < |models| && models[i] == a;
    var j :| 0 <= j < |models| && models[j] == b;
    assert !(i < j) && !(j < i);
  }

  /** In a keyed collection getById finds a model exactly when one has the `_id` text. */
  lemma KeyedById(models: seq<Doc>, id: string)
    requires Keyed(models)
    ensures IndexById(models, id).Some? <==> exists d :: d in models && IdText(d) == id
  {
    if d :| d in models && IdText(d) == id {
      var k :| 0 <= k < |models| && models[k] == d;
      ByIdFindsEach(models, k);
    }
  }

  // ------------------------------------------------------- getList params

  /** The parameters getList reads from its params object. */
  datatype ListParams = ListParams(
    filter: string,
    fields: Option<seq<Value>>,
    limit: int,
    offset: int,
    sort: Option<(string, string)>,
    getTotal: bool,
    getPresentations: bool)

  /** `params[key]?.toString()?.toInt() ?: 0`. */
  function IntParam(params: Obj, key: string): (r: Result<int>)
    ensures Get(params, key) == VNull ==> r == Ok(0)
    ensures Get(params, key) != VNull ==> (r.Ok? <==> ParseInt(Text(params[key])).Some?)
    ensures r.Ok? ==> IsInt32(r.value)
  {
    if Get(params, key) == VNull then Ok(0)
    else match ParseInt(Text(params[key]))
      case Some(n) => Ok(n)
      case None => Err("NumberFormatException")
  }

  /**
   * How getList reads its params: a missing filter is "", fields count only
   * when they are an array, sort only when it is a pair, get_total and
   * get_presentations are set when present; limit and offset throw when
   * they are not integers.
   */
  function ReadParams(params: Obj): (r: Result<ListParams>)
    ensures r.Ok? <==> IntParam(params, "limit").Ok? && IntParam(params, "offset").Ok?
    ensures r.Ok? ==> r.value.getTotal == (Get(params, "get_total") != VNull)
    ensures r.Ok? ==> (r.value.sort.Some? <==> Get(params, "sort").VPair?)
    ensures params == map[] ==> r == Ok(ListParams("", None, 0, 0, None, false, false))
  {
    match (IntParam(params, "limit"), IntParam(params, "offset"))
    case (Ok(limit), Ok(offset)) =>
      var filterValue := Get(params, "filter");
      var fieldsValue := Get(params, "fields");
      var sortValue := Get(params, "sort");
      Ok(ListParams(
        if filterValue == VNull then "" else Text(filterValue),
        if fieldsValue.VArr? then Some(fieldsValue.items) else None,
        limit,
        offset,
        if sortValue.VPair? then Some((sortValue.first, sortValue.second)) else None,
        Get(params, "get_total") != VNull,
        Get(params, "get_presentations") != VNull))
    case _ => Err("NumberFormatException")
  }

  // ---------------------------------------------------------- text filter

  /** The text the filter is matched against: the value's text, or its presentation when asked for. */
  function FieldText(p: ListParams, present: (Item, string) -> string, d: Doc, field: string): string
    requires field in d
  {
    Lower(if p.getPresentations then present(Model(d), field) else Text(d[field]))
  }

  /**
   * A field lets a model through the filter: a schema field other than
   * `_id`, allowed by `fields` when given, non-null in the model, whose text
   * starts with the filter ignoring case.
   */
  predicate FieldMatches(schema: Schema, p: ListParams, present: (Item, string) -> string, d: Doc, field: string)
  {
    field in schema && Get(d, field) != VNull && (p.fields.None? || VStr(field) in p.fields.value) &&
    field != ID && StartsWithIgnoreCase(FieldText(p, present, d, field), p.filter)
  }

  predicate Passes(schema: Schema, p: ListParams, present: (Item, string) -> string, d: Doc)
  {
    exists field :: field in schema && FieldMatches(schema, p, present, d, field)
  }

  /** The models that pass the filter, in collection order. */
  function Matching(schema: Schema, p: ListParams, present: (Item, string) -> string, models: seq<Doc>): seq<Doc>
  {
    if models == [] then []
    else (if Passes(schema, p, present, models[0]) then [models[0]] else []) + Matching(schema, p, present, models[1..])
  }

  /** A model is in the filtered list exactly when it is in the collection and passes the filter. */
  lemma {:induction false} MatchingMembers(schema: Schema, p: ListParams, present: (Item, string) -> string, models: seq<Doc>)
    ensures forall d :: d in Matching(schema, p, present, models) <==> d in models && Passes(schema, p, present, d)
    ensures |Matching(schema, p, present, models)| <= |models|
  {
    if models != [] {
      MatchingMembers(schema, p, present, models[1..]);
      assert models == [models[0]] + models[1..];
    }
  }

  /** The models getList keeps before sorting: all of them when the filter is empty. */
  function Filtered(schema: Schema, p: ListParams, present: (Item, string) -> string, models: seq<Doc>): seq<Doc>
  {
    if p.filter == "" then models else Matching(schema, p, present, models)
  }

  function AsItems(models: seq<Doc>): (r: seq<Item>)
    ensures |r| == |models| && forall i :: 0 <= i < |r| ==> r[i] == Model(models[i])
  {
    if models == [] then [] else [Model(models[0])] + AsItems(models[1..])
  }

  // ---------------------------------------------------------- sort order

  /** The Int sort key of one model: `model[field]?.toString()?.toInt() ?: 0`, None when toInt throws. */
  function IntKey(d: Doc, field: string): Option<int>
  {
    if Get(d, field) == VNull then Some(0) else ParseInt(Text(d[field]))
  }

  /** The pair compared for an Int field: when the first conversion throws both stay 0, when the second does it stays 0. */
  function IntKeys(d1: Doc, d2: Doc, field: string): (int, int)
  {
    match IntKey(d1, field)
    case None => (0, 0)
    case Some(v1) => (v1, IntKey(d2, field).GetOr(0))
  }

  /** The String sort key: `model[field]?.toString()?.toLowerCase() ?: ""`. */
  function StrKey(d: Doc, field: string): string
  {
    if Get(d, field) == VNull then "" else Lower(Text(d[field]))
  }

  /** `v1 > v2` gives `corrector`, `v1 < v2` gives `-corrector`, else 0. */
  function Signed(greater: bool, less: bool, corrector: int): int
  {
    if greater then corrector else if less then -corrector else 0
  }

  /**
   * DBCollection.getSortOrder: null when either object is not a model;
   * otherwise the comparison of the sort field by its schema type (Int
   * numerically, Boolean with false before true, anything else as
   * lower-cased text), negated for "DESC".
   */
  function SortOrder(schema: Schema, a: Item, b: Item, sort: (string, string)): (r: Option<int>)
    ensures r.None? <==> !a.Model? || !b.Model?
    ensures r.Some? ==> r.value in {-1, 0, 1}
  {
    if !a.Model? || !b.Model? then None
    else
      var field := sort.0;
      var corrector := if sort.1 == "DESC" then -1 else 1;
      var d1 := a.doc;
      var d2 := b.doc;
      var typeName := if field in schema then TypeName(schema[field]) else "null";
      if typeName == "Int" then
        var (v1, v2) := IntKeys(d1, d2, field);
        Some(Signed(v1 > v2, v1 < v2, corrector))
      else if typeName == "Boolean" then
        var v1 := ToBoolean(Text(Get(d1, field)));
        var v2 := ToBoolean(Text(Get(d2, field)));
        Some(Signed(v1 && !v2, !v1 && v2, corrector))
      else
        var v1 := StrKey(d1, field);
        var v2 := StrKey(d2, field);
        Some(Signed(StrLess(v2, v1), StrLess(v1, v2), corrector))
  }

  /** `getSortOrder(...) ?: 0`, the comparator handed to sortWith. */
  function Comparator(order: (Item, Item, (string, string)) -> Option<int>, sort: (string, string)): (Item, Item) -> int
  {
    (a: Item, b: Item) => order(a, b, sort).GetOr(0)
  }

  /** Swapping the operands negates the comparison, for every pair of items in `s`. */
  ghost predicate Antisymmetric(cmp: (Item, Item) -> int, s: seq<Item>)
  {
    forall a, b :: a in s && b in s && cmp(a, b) > 0 ==> cmp(b, a) < 0
  }

  /**
   * On models whose Int sort field holds an int (as every well-typed model's
   * does) the base comparison is antisymmetric, so it is a valid sort order.
   */
  lemma SortOrderAntisymmetric(schema: Schema, sort: (string, string), d1: Doc, d2: Doc)
    requires WellTyped(schema, d1) && WellTyped(schema, d2)
    ensures SortOrder(schema, Model(d1), Model(d2), sort).GetOr(0) == -SortOrder(schema, Model(d2), Model(d1), sort).GetOr(0)
  {
    var field := sort.0;
    if field in schema && schema[field] == IntType {
      if field in d1 { ParseIntText(d1[field].i); }
      if field in d2 { ParseIntText(d2[field].i); }
    } else if !(field in schema && schema[field] == BooleanType) {
      StrLessAsymmetric(StrKey(d1, field), StrKey(d2, field));
    }
  }

  /** The base comparator is antisymmetric on any list of well-typed models. */
  lemma ComparatorAntisymmetric(schema: Schema, sort: (string, string), s: seq<Item>)
    requires forall it :: it in s ==> it.Model? && WellTyped(schema, it.doc)
    ensures Antisymmetric(Comparator((a, b, o) => SortOrder(schema, a, b, o), sort), s)
  {
    forall a, b | a in s && b in s
      ensures Comparator((a, b, o) => SortOrder(schema, a, b, o), sort)(a, b) ==
        -Comparator((a, b, o) => SortOrder(schema, a, b, o), sort)(b, a)
    {
      SortOrderAntisymmetric(schema, sort, a.doc, b.doc);
    }
  }

  // --------------------------------------------------------- stable sort

  /** Insert `x` before the first element it is not greater than. */
  function InsertBy(x: Item, s: seq<Item>, cmp: (Item, Item) -> int): seq<Item>
  {
    if s == [] then [x]
    else if cmp(x, s[0]) <= 0 then [x] + s
    else [s[0]] + InsertBy(x, s[1..], cmp)
  }

  /** A stable sort by `cmp` (the model of `sortWith`). */
  function SortBy(s: seq<Item>, cmp: (Item, Item) -> int): seq<Item>
  {
    if s == [] then [] else InsertBy(s[0], SortBy(s[1..], cmp), cmp)
  }

  /** Each element is not greater than the next. */
  ghost predicate Ordered(s: seq<Item>, cmp: (Item, Item) -> int)
  {
    forall i :: 0 <= i < |s| - 1 ==> cmp(s[i], s[i + 1]) <= 0
  }

  lemma {:induction false} InsertByPermutes(x: Item, s: seq<Item>, cmp: (Item, Item) -> int)
    ensures multiset(InsertBy(x, s, cmp)) == multiset(s) + multiset{x}
  {
    if s != [] && cmp(x, s[0]) > 0 {
      InsertByPermutes(x, s[1..], cmp);
      assert s == [s[0]] + s[1..];
    }
  }

  /** Sorting rearranges the list: same elements, same multiplicities. */
  lemma {:induction false} SortByPermutes(s: seq<Item>, cmp: (Item, Item) -> int)
    ensures multiset(SortBy(s, cmp)) == multiset(s)
  {
    if s != [] {
      SortByPermutes(s[1..], cmp);
      InsertByPermutes(s[0], SortBy(s[1..], cmp), cmp);
      assert s == [s[0]] + s[1..];
    }
  }

  lemma {:induction false} InsertByOrdered(x: Item, s: seq<Item>, cmp: (Item, Item) -> int, all: seq<Item>)
    requires Ordered(s, cmp) && Antisymmetric(cmp, all)
    requires x in all && forall y :: y in s ==> y in all
    ensures Ordered(InsertBy(x, s, cmp), cmp)
    ensures InsertBy(x, s, cmp) != [] && (InsertBy(x, s, cmp)[0] == x || (s != [] && InsertBy(x, s, cmp)[0] == s[0]))
  {
    if s != [] && cmp(x, s[0]) > 0 {
      var t := s[1..];
      assert Ordered(t, cmp) by {
        forall i | 0 <= i < |t| - 1 ensures cmp(t[i], t[i + 1]) <= 0 { assert t[i] == s[i + 1] && t[i + 1] == s[i + 2]; }
      }
      InsertByOrdered(x, t, cmp, all);
      assert cmp(s[0], x) < 0;
      var r := InsertBy(x, t, cmp);
      assert InsertBy(x, s, cmp) == [s[0]] + r;
      if t != [] { assert cmp(s[0], t[0]) <= 0; }
    }
  }

  lemma {:induction false} SortByOrdered(s: seq<Item>, cmp: (Item, Item) -> int, all: seq<Item>)
    requires Antisymmetric(cmp, all) && forall y :: y in s ==> y in all
    ensures Ordered(SortBy(s, cmp), cmp)
  {
    if s != [] {
      SortByOrdered(s[1..], cmp, all);
      SortByPermutes(s[1..], cmp);
      forall y | y in SortBy(s[1..], cmp) ensures y in all {
        assert y in multiset(SortBy(s[1..], cmp));
        assert y in multiset(s[1..]);
      }
      InsertByOrdered(s[0], SortBy(s[1..], cmp), cmp, all);
    }
  }

  /** The sort getList applies: a permutation that leaves each element not greater than the next. */
  lemma SortByCorrect(s: seq<Item>, cmp: (Item, Item) -> int)
    requires Antisymmetric(cmp, s)
    ensures multiset(SortBy(s, cmp)) == multiset(s)
    ensures Ordered(SortBy(s, cmp), cmp)
  {
    SortByPermutes(s, cmp);
    SortByOrdered(s, cmp, s);
  }

  /** Sorting is applied only when the sort field is in the schema. */
  function Sorted(schema: Schema, p: ListParams, order: (Item, Item, (string, string)) -> Option<int>, items: seq<Item>): seq<Item>
  {
    if p.sort.Some? && p.sort.value.0 in schema then SortBy(items, Comparator(order, p.sort.value)) else items
  }

  // -------------------------------------------------------------- paging

  /** What subList throws for a negative start, and for a start past the end. */
  const OutOfBounds := "IndexOutOfBoundsException"
  const BadRange := "IllegalArgumentException"

  /**
   * The end index getList passes to subList. `offset + limit` is a Kotlin
   * Int addition, so it wraps around at 32 bits.
   */
  function EndIndex(size: int, offset: int, limit: int): int
  {
    var e := WrapInt32(offset + limit);
    if e == 0 || e > size || limit == 0 then size else e
  }

  /**
   * The paging step of getList on the sorted list: when offset or limit is
   * positive, the page results[offset..end]; an empty page falls back to
   * the whole list; get_total appends the count before paging. `subList`
   * throws IndexOutOfBoundsException for a negative offset and
   * IllegalArgumentException for an offset beyond the end index (the end
   * index never exceeds the size).
   */
  function Page(results: seq<Item>, offset: int, limit: int, getTotal: bool): (r: Result<seq<Item>>)
    ensures r.Err? <==> (offset > 0 || limit > 0) && !(0 <= offset <= EndIndex(|results|, offset, limit))
    ensures r.Err? ==> r.exception == if offset < 0 then OutOfBounds else BadRange
    ensures r.Ok? && getTotal ==> |r.value| > 0 && r.value[|r.value| - 1] == Total(|results|)
  {
    var total := if getTotal then [Total(|results|)] else [];
    if offset > 0 || limit > 0 then
      var end := EndIndex(|results|, offset, limit);
      if offset < 0 then Err(OutOfBounds)
      else if offset > end then Err(BadRange)
      else if |results[offset..end]| > 0 then Ok(results[offset..end] + total)
      else Ok(results + total)
    else Ok(results + total)
  }

  /**
   * The page holds `limit` items from `offset` (fewer at the end of the
   * list), and never more than `limit` models when limit is positive, as
   * long as `offset + limit` fits in an Int; past that the end index wraps
   * around to a negative number and subList throws.
   */
  lemma PageWindow(results: seq<Item>, offset: int, limit: int, getTotal: bool)
    requires 0 <= offset < |results| && limit > 0 && IsInt32(offset) && IsInt32(limit)
    ensures var r := Page(results, offset, limit, getTotal);
      offset + limit <= INT_MAX ==>
        r.Ok? && r.value[..|r.value| - (if getTotal then 1 else 0)] ==
          results[offset..if offset + limit <= |results| then offset + limit else |results|]
    ensures offset + limit > INT_MAX ==> Page(results, offset, limit, getTotal).Err?
  {
    var r := Page(results, offset, limit, getTotal);
    if offset + limit <= INT_MAX {
      var end := if offset + limit <= |results| then offset + limit else |results|;
      assert EndIndex(|results|, offset, limit) == end;
      assert |results[offset..end]| > 0;
      if getTotal {
        assert r.value == results[offset..end] + [Total(|results|)];
        assert r.value[..|r.value| - 1] == results[offset..end];
      } else {
        assert r.value[..|r.value| - 0] == r.value;
      }
    } else {
      assert WrapInt32(offset + limit) == offset + limit - 0x1_0000_0000;
    }
  }

  /**
   * Offset 1 and the largest limit on three items: the end index wraps
   * around to a negative number, below the offset, and subList throws
   * IllegalArgumentException.
   */
  lemma PageLimitWraps()
    ensures Page([Total(0), Total(1), Total(2)], 1, INT_MAX, false) == Err(BadRange)
  {
    assert WrapInt32(1 + INT_MAX) == INT_MIN;
  }

  /** Without offset and limit the whole list is returned, with the count last when asked for. */
  lemma PageAll(results: seq<Item>, getTotal: bool)
    ensures Page(results, 0, 0, getTotal) == Ok(results + if getTotal then [Total(|results|)] else [])
  {
  }

  /** getList from its parameters: filter, then sort, then page. */
  function ListOf(schema: Schema, p: ListParams, present: (Item, string) -> string,
                  order: (Item, Item, (string, string)) -> Option<int>, models: seq<Doc>): Result<seq<Item>>
  {
    Page(Sorted(schema, p, order, AsItems(Filtered(schema, p, present, models))), p.offset, p.limit, p.getTotal)
  }

  // --------------------------------------------------------- JSON rows

  /** A schema field getListJSON copies: non-null, allowed by `fields`, and never "password". */
  predicate Shown(schema: Schema, fields: Option<seq<Value>>, d: Doc, field: string)
  {
    field in schema && Get(d, field) != VNull && (fields.None? || VStr(field) in fields.value) && field != "password"
  }

  const TEXT_SUFFIX := "_text"

  /** The shown fields whose presentation differs from the value's text, when presentations are asked for. */
  function Presented(schema: Schema, fields: Option<seq<Value>>, getPresentations: bool,
                     present: (Item, string) -> string, d: Doc): set<string>
  {
    set f | f in schema.Keys && getPresentations && Shown(schema, fields, d, f) && present(Model(d), f) != Text(d[f])
  }

  /** The values of the shown fields among `keys`. */
  function RowValues(schema: Schema, fields: Option<seq<Value>>, d: Doc, keys: set<string>): Obj
  {
    map f | f in keys && Shown(schema, fields, d, f) :: d[f]
  }

  /** The `_text` companions of the presented fields among `keys`. */
  function TextKeys(schema: Schema, fields: Option<seq<Value>>, getPresentations: bool,
                    present: (Item, string) -> string, d: Doc, keys: set<string>): set<string>
  {
    set f | f in keys && f in Presented(schema, fields, getPresentations, present, d) :: f + TEXT_SUFFIX
  }

  /** `<field>_text` mapped to the field's presentation. */
  function RowLabels(schema: Schema, fields: Option<seq<Value>>, getPresentations: bool,
                     present: (Item, string) -> string, d: Doc, keys: set<string>): Obj
  {
    map k | k in TextKeys(schema, fields, getPresentations, present, d, keys) :: VStr(present(Model(d), k[..|k| - |TEXT_SUFFIX|]))
  }

  /** The part of a row contributed by the schema fields in `keys`. */
  function RowOn(schema: Schema, fields: Option<seq<Value>>, getPresentations: bool,
                 present: (Item, string) -> string, d: Doc, keys: set<string>): Obj
  {
    RowValues(schema, fields, d, keys) + RowLabels(schema, fields, getPresentations, present, d, keys)
  }

  /**
   * The JSON row of one model: every shown field with its value, and
   * `<field>_text` with the presentation where it differs from the value.
   */
  function RowOf(schema: Schema, fields: Option<seq<Value>>, getPresentations: bool,
                 present: (Item, string) -> string, d: Doc): Obj
  {
    RowOn(schema, fields, getPresentations, present, d, schema.Keys)
  }

  /** No schema field is another field's `_text` companion, so rows do not depend on field order. */
  predicate NoTextClash(schema: Schema)
  {
    forall f :: f in schema ==> f + TEXT_SUFFIX !in schema
  }

  /** A row never carries the password, nor a presentation of it. */
  lemma RowHidesPassword(schema: Schema, fields: Option<seq<Value>>, getPresentations: bool,
                         present: (Item, string) -> string, d: Doc)
    ensures "password" !in RowOf(schema, fields, getPresentations, present, d)
  {
    forall k | k in TextKeys(schema, fields, getPresentations, present, d, schema.Keys) ensures k != "password" {
      var f :| f in schema.Keys && f in Presented(schema, fields, getPresentations, present, d) && k == f + TEXT_SUFFIX;
      assert k[|k| - 5..] == "_text";
      assert "password"[3..] == "sword";
    }
  }

  lemma IntRoundTrip(n: int)
    ensures IsInt32(n) ==> ParseInt(IntText(n)) == Some(n)
  {
    if IsInt32(n) { ParseIntText(n); }
  }

  /** The total count as getListJSON renders it: `toString().toInt()`, dropped when that throws. */
  function TotalRow(n: int): (r: seq<Value>)
    ensures IsInt32(n) ==> r == [VInt(n)]
  {
    IntRoundTrip(n);
    match ParseInt(IntText(n)) case Some(v) => [VInt(v)] case None => []
  }
}
