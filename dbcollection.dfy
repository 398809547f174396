/**
 * interactors/DBCollection.kt: an in-memory list of models backed by a
 * MongoDB collection (here the abstract keyed store `stored`), with an
 * iterator cursor, lookups, filtered/sorted/paged listings and removal.
 */
module DBCollections {
  import opened Wrappers
  import opened Strings
  import opened Json
  import opened DBModels
  import opened Queries

  /**
   * DBCollection.getFieldPresentation: a model's field as text, "" for a
   * null field or an object that is not a model.
   */
  function FieldPresentation(it: Item, field: string): (r: string)
  {
    if !it.Model? || Get(it.doc, field) == VNull then "" else Text(it.doc[field])
  }

  /** With the base presentation no field differs from its text, so base rows carry no `_text` companions. */
  lemma BaseRowsHaveNoLabels(schema: Schema, fields: Option<seq<Value>>, getPresentations: bool, d: Doc)
    ensures Presented(schema, fields, getPresentations, FieldPresentation, d) == {}
  {
  }

  /** DBCollection.getSortOrder, bound to a schema. */
  function BaseOrder(schema: Schema): (Item, Item, (string, string)) -> Option<int>
  {
    (a: Item, b: Item, sort: (string, string)) => SortOrder(schema, a, b, sort)
  }

  /** The rows getListJSON emits for one item: the total as a number, a model as its row unless that is empty. */
  function ItemRows(schema: Schema, fields: Option<seq<Value>>, getPresentations: bool,
                    present: (Item, string) -> string, it: Item): seq<Value>
  {
    match it
    case Total(n) => TotalRow(n)
    case Model(d) =>
      var row := RowOf(schema, fields, getPresentations, present, d);
      if |row| > 0 then [VObj(row)] else []
  }

  /** The rows getListJSON emits for a getList result. */
  function RowsOf(schema: Schema, fields: Option<seq<Value>>, getPresentations: bool,
                  present: (Item, string) -> string, items: seq<Item>): seq<Value>
  {
    if items == [] then []
    else ItemRows(schema, fields, getPresentations, present, items[0]) + RowsOf(schema, fields, getPresentations, present, items[1..])
  }

  lemma RowsOfSplit(schema: Schema, fields: Option<seq<Value>>, getPresentations: bool,
                    present: (Item, string) -> string, items: seq<Item>, i: nat)
    requires i < |items|
    ensures RowsOf(schema, fields, getPresentations, present, items[i..]) ==
      ItemRows(schema, fields, getPresentations, present, items[i]) + RowsOf(schema, fields, getPresentations, present, items[i + 1..])
  {
    assert items[i..][1..] == items[i + 1..];
  }

  lemma SeqAssoc(a: seq<Value>, b: seq<Value>, c: seq<Value>)
    ensures a + b + c == a + (b + c)
  {
  }

  /** Every row is a number (the total) or an object without a password. */
  predicate NoPasswords(rows: seq<Value>)
  {
    forall i :: 0 <= i < |rows| ==> rows[i].VInt? || (rows[i].VObj? && "password" !in rows[i].fields)
  }

  lemma NoPasswordsAppend(a: seq<Value>, b: seq<Value>)
    requires NoPasswords(a) && NoPasswords(b)
    ensures NoPasswords(a + b)
  {
    assert forall i :: 0 <= i < |a + b| ==> (a + b)[i] == if i < |a| then a[i] else b[i - |a|];
  }

  /** No row of getListJSON holds a password. */
  lemma {:induction false} RowsHidePasswords(schema: Schema, fields: Option<seq<Value>>, getPresentations: bool,
                                             present: (Item, string) -> string, items: seq<Item>)
    ensures NoPasswords(RowsOf(schema, fields, getPresentations, present, items))
  {
    if items != [] {
      var head := ItemRows(schema, fields, getPresentations, present, items[0]);
      var rest := RowsOf(schema, fields, getPresentations, present, items[1..]);
      RowsHidePasswords(schema, fields, getPresentations, present, items[1..]);
      ItemHidesPassword(schema, fields, getPresentations, present, items[0]);
      NoPasswordsAppend(head, rest);
    }
  }

  /** The rows of one item hold no password. */
  lemma ItemHidesPassword(schema: Schema, fields: Option<seq<Value>>, getPresentations: bool,
                          present: (Item, string) -> string, it: Item)
    ensures NoPasswords(ItemRows(schema, fields, getPresentations, present, it))
  {
    if it.Model? {
      RowHidesPassword(schema, fields, getPresentations, present, it.doc);
    }
  }

  /** Adding one field to the keys adds its value exactly when it is shown. */
  lemma RowValuesStep(schema: Schema, fields: Option<seq<Value>>, d: Doc, keys: set<string>, f: string)
    ensures RowValues(schema, fields, d, keys + {f}) ==
      if Shown(schema, fields, d, f) then RowValues(schema, fields, d, keys)[f := d[f]] else RowValues(schema, fields, d, keys)
  {
  }

  /** Adding one field to the keys adds its `_text` companion exactly when it is presented. */
  lemma RowLabelsStep(schema: Schema, fields: Option<seq<Value>>, getPresentations: bool,
                      present: (Item, string) -> string, d: Doc, keys: set<string>, f: string)
    ensures var before := RowLabels(schema, fields, getPresentations, present, d, keys);
      RowLabels(schema, fields, getPresentations, present, d, keys + {f}) ==
      if f in Presented(schema, fields, getPresentations, present, d)
      then before[f + TEXT_SUFFIX := VStr(present(Model(d), f))] else before
  {
    if f in Presented(schema, fields, getPresentations, present, d) {
      RowLabelsAdd(schema, fields, getPresentations, present, d, keys, f);
    } else {
      RowLabelsSame(schema, fields, getPresentations, present, d, keys, f);
    }
  }

  /** The presented case of RowLabelsStep. */
  lemma RowLabelsAdd(schema: Schema, fields: Option<seq<Value>>, getPresentations: bool,
                     present: (Item, string) -> string, d: Doc, keys: set<string>, f: string)
    requires f in Presented(schema, fields, getPresentations, present, d)
    ensures RowLabels(schema, fields, getPresentations, present, d, keys + {f}) ==
      RowLabels(schema, fields, getPresentations, present, d, keys)[f + TEXT_SUFFIX := VStr(present(Model(d), f))]
  {
    hide TextKeys, Presented;
    var k := f + TEXT_SUFFIX;
    var v := VStr(present(Model(d), f));
    var before := RowLabels(schema, fields, getPresentations, present, d, keys);
    var after := RowLabels(schema, fields, getPresentations, present, d, keys + {f});
    TextKeysStep(schema, fields, getPresentations, present, d, keys, f);
    assert k[..|k| - |TEXT_SUFFIX|] == f;
    assert after.Keys == before.Keys + {k};
    forall x | x in after ensures after[x] == before[k := v][x] {
      if x == k {
        assert after[x] == v;
      }
    }
  }

  /** The case of RowLabelsStep where the field is not presented. */
  lemma RowLabelsSame(schema: Schema, fields: Option<seq<Value>>, getPresentations: bool,
                      present: (Item, string) -> string, d: Doc, keys: set<string>, f: string)
    requires f !in Presented(schema, fields, getPresentations, present, d)
    ensures RowLabels(schema, fields, getPresentations, present, d, keys + {f}) ==
      RowLabels(schema, fields, getPresentations, present, d, keys)
  {
    hide TextKeys, Presented;
    TextKeysStep(schema, fields, getPresentations, present, d, keys, f);
  }

  /** Adding one field to the keys adds its `_text` name exactly when the field is presented. */
  lemma TextKeysStep(schema: Schema, fields: Option<seq<Value>>, getPresentations: bool,
                     present: (Item, string) -> string, d: Doc, keys: set<string>, f: string)
    ensures TextKeys(schema, fields, getPresentations, present, d, keys + {f}) ==
      TextKeys(schema, fields, getPresentations, present, d, keys) +
      (if f in Presented(schema, fields, getPresentations, present, d) then {f + TEXT_SUFFIX} else {})
  {
    hide Presented;
  }

  /** No field of the schema is the `_text` companion of a schema field. */
  lemma NotALabel(schema: Schema, fields: Option<seq<Value>>, getPresentations: bool,
                  present: (Item, string) -> string, d: Doc, keys: set<string>, f: string)
    requires NoTextClash(schema) && keys <= schema.Keys && f in schema
    ensures f !in RowLabels(schema, fields, getPresentations, present, d, keys)
  {
  }

  /** Adding one schema field to the row, when no field is another's `_text` companion. */
  lemma RowOnStep(schema: Schema, fields: Option<seq<Value>>, getPresentations: bool,
                  present: (Item, string) -> string, d: Doc, keys: set<string>, f: string)
    requires NoTextClash(schema) && keys <= schema.Keys && f in schema
    ensures var before := RowOn(schema, fields, getPresentations, present, d, keys);
      var after := RowOn(schema, fields, getPresentations, present, d, keys + {f});
      if !Shown(schema, fields, d, f) then after == before
      else if f in Presented(schema, fields, getPresentations, present, d) then
        after == before[f := d[f]][f + TEXT_SUFFIX := VStr(present(Model(d), f))]
      else after == before[f := d[f]]
  {
    var V := RowValues(schema, fields, d, keys);
    var L := RowLabels(schema, fields, getPresentations, present, d, keys);
    var P := Presented(schema, fields, getPresentations, present, d);
    RowValuesStep(schema, fields, d, keys, f);
    RowLabelsStep(schema, fields, getPresentations, present, d, keys, f);
    NotALabel(schema, fields, getPresentations, present, d, keys, f);
    if !Shown(schema, fields, d, f) {
      assert f !in P;
    } else if f in P {
      var k := f + TEXT_SUFFIX;
      var x := VStr(present(Model(d), f));
      MapUpdates(V, L, f, d[f], k, x);
    } else {
      MapUpdate(V, L, f, d[f]);
    }
  }

  lemma MapUpdate(V: Obj, L: Obj, f: string, v: Value)
    requires f !in L
    ensures V[f := v] + L == (V + L)[f := v]
  {
  }

  lemma MapUpdates(V: Obj, L: Obj, f: string, v: Value, k: string, x: Value)
    requires f !in L
    ensures V[f := v] + L[k := x] == (V + L)[f := v][k := x]
  {
  }

  /** A collection of models with its cursor and its backing store. */
  class DBCollection {
    const schema: Schema
    var models: seq<Doc>
    var currentItem: int
    var stored: map<string, Doc>

    /** `_id` is a String field; every model is well typed, has an `_id`, and no two share one. */
    ghost predicate Valid()
      reads this
    {
      ID in schema && schema[ID] == StringType &&
      (forall i :: 0 <= i < |models| ==> WellTyped(schema, models[i])) &&
      Keyed(models) && currentItem >= 0
    }

    constructor (schema: Schema, stored: map<string, Doc>)
      requires ID in schema && schema[ID] == StringType
      ensures this.schema == schema && this.stored == stored && models == [] && currentItem == 0
      ensures Valid()
    {
      this.schema := schema;
      this.stored := stored;
      models := [];
      currentItem := 0;
    }

    /** DBCollection.count. */
    function Count(): nat
      reads this
    {
      |models|
    }

    /** Iterator.next: the model under the cursor, which always advances; past the end it throws. */
    method Next() returns (r: Result<Doc>)
      modifies this`currentItem
      ensures currentItem == old(currentItem) + 1
      ensures 0 <= old(currentItem) < |models| ==> r == Ok(models[old(currentItem)])
      ensures !(0 <= old(currentItem) < |models|) ==> r.Err?
    {
      var index := currentItem;
      currentItem := currentItem + 1;
      if 0 <= index < |models| {
        r := Ok(models[index]);
      } else {
        r := Err("IndexOutOfBoundsException");
      }
    }

    /** Iterator.hasNext: whether the cursor is before the end; at the end it rewinds the cursor to 0. */
    method HasNext() returns (more: bool)
      modifies this`currentItem
      ensures more <==> old(currentItem) < |models|
      ensures currentItem == if more then old(currentItem) else 0
    {
      more := currentItem < |models|;
      if !more {
        currentItem := 0;
      }
    }

    /**
     * A Kotlin `for` loop over the collection, which drives hasNext/next on
     * the collection's own cursor: it visits the models from the cursor to
     * the end, in order, and leaves the cursor rewound.
     */
    method Traverse() returns (visited: seq<Doc>)
      requires currentItem >= 0
      modifies this`currentItem
      ensures visited == if old(currentItem) <= |models| then models[old(currentItem)..] else []
      ensures currentItem == 0
    {
      ghost var start := currentItem;
      visited := [];
      var more := HasNext();
      while more
        invariant more ==> start <= currentItem < |models| && visited == models[start..currentItem]
        invariant !more ==> currentItem == 0 && visited == if start <= |models| then models[start..] else []
        decreases more, |models| - currentItem
      {
        var model := Next();
        visited := visited + [model.value];
        more := HasNext();
      }
    }

    /** DBCollection.getByIndex: the model at `index` when there are more models than that; a negative index throws. */
    function GetByIndex(index: int): (r: Result<Option<Doc>>)
      reads this
      ensures 0 <= index < |models| ==> r == Ok(Some(models[index]))
      ensures index >= |models| ==> r == Ok(None)
      ensures index < 0 <==> r.Err?
    {
      if |models| > index then
        if index < 0 then Err("IndexOutOfBoundsException") else Ok(Some(models[index]))
      else Ok(None)
    }

    /**
     * DBCollection.addModel: a model whose `_id` no stored model has is
     * appended, after receiving a fresh ObjectId when it has none; a model
     * whose `_id` is already present is ignored.
     */
    method AddModel(model: DBModel, freshId: string)
      requires Valid() && model.Valid() && model.schema == schema
      requires forall i :: 0 <= i < |models| ==> IdText(models[i]) != freshId
      modifies this`models, model
      ensures Valid() && model.Valid()
      ensures (exists i :: 0 <= i < |old(models)| && Get(old(models)[i], ID) == Get(old(model.doc), ID)) ==>
        models == old(models) && model.doc == old(model.doc)
      ensures !(exists i :: 0 <= i < |old(models)| && Get(old(models)[i], ID) == Get(old(model.doc), ID)) ==>
        model.doc == (if ID in old(model.doc) then old(model.doc) else old(model.doc)[ID := VStr(freshId)]) &&
        models == old(models) + [model.doc]
    {
      var id := model.Get(ID);
      if !(exists i :: 0 <= i < |models| && Get(models[i], ID) == id) {
        if id == VNull {
          var wasSet := model.Set(ID, VId(freshId));
        }
        assert forall i :: 0 <= i < |models| ==> IdText(models[i]) != IdText(model.doc) by {
          forall i | 0 <= i < |models| ensures IdText(models[i]) != IdText(model.doc) {
            assert Get(models[i], ID).VStr?;
          }
        }
        models := models + [model.doc];
      }
    }

    /**
     * A change made through a model object the collection holds: the model
     * at `i` takes the new document, which keeps its `_id`.
     */
    method Put(i: nat, d: Doc)
      requires Valid() && i < |models| && WellTyped(schema, d) && ID in d && d[ID] == models[i][ID]
      modifies this`models
      ensures Valid()
      ensures models == old(models)[i := d]
    {
      models := models[i := d];
      assert forall j :: 0 <= j < |models| ==> IdText(models[j]) == IdText(old(models)[j]);
    }

    /** DBModel.save on a model of this collection. */
    method Save(d: Doc, freshId: string)
      modifies this`stored
      ensures stored == StoreSave(old(stored), d, freshId)
      ensures old(Valid()) ==> Valid()
    {
      stored := StoreSave(stored, d, freshId);
    }

    /** The in-memory list replaced by the models `keep` accepts (a filtered reload). */
    method Retain(keep: Doc -> bool)
      requires Valid()
      modifies this`models
      ensures Valid()
      ensures models == Filter(old(models), keep)
    {
      FilterKeyed(models, keep);
      models := Filter(models, keep);
      assert forall j :: 0 <= j < |models| ==> models[j] in old(models);
    }

    /**
     * DBCollection.remove: the model getById finds is deleted from the store
     * and from the list; `status` is false, and nothing changes, when
     * getById finds none.
     */
    method Remove(id: string) returns (status: bool)
      requires Valid()
      modifies this`models, this`stored
      ensures Valid()
      ensures status <==> IndexById(old(models), id).Some?
      ensures status ==> var i := IndexById(old(models), id).value;
        models == old(models)[..i] + old(models)[i + 1..] && stored == StoreRemove(old(stored), old(models)[i])
      ensures !status ==> models == old(models) && stored == old(stored)
    {
      var found := IndexById(models, id);
      if found.None? {
        return false;
      }
      var i := found.value;
      stored := StoreRemove(stored, models[i]);
      RemovePreservesKeyed(i);
      models := models[..i] + models[i + 1..];
      status := true;
    }

    /** DBCollection.detach: like remove, but the store keeps the record. */
    method Detach(id: string)
      requires Valid()
      modifies this`models
      ensures Valid()
      ensures IndexById(old(models), id).None? ==> models == old(models)
      ensures IndexById(old(models), id).Some? ==> var i := IndexById(old(models), id).value;
        models == old(models)[..i] + old(models)[i + 1..]
    {
      var found := IndexById(models, id);
      if found.Some? {
        var i := found.value;
        RemovePreservesKeyed(i);
        models := models[..i] + models[i + 1..];
      }
    }

    lemma RemovePreservesKeyed(i: nat)
      requires Valid() && i < |models|
      ensures var rest := models[..i] + models[i + 1..];
        Keyed(rest) && forall j :: 0 <= j < |rest| ==> WellTyped(schema, rest[j])
    {
      var rest := models[..i] + models[i + 1..];
      assert forall j :: 0 <= j < |rest| ==> rest[j] == models[if j < i then j else j + 1];
    }

    /**
     * getList: the models passing the text filter (all of them when the
     * filter is empty), in collection order, then sorted when the sort
     * field is in the schema, then paged. `present` and `order` are the
     * collection's getFieldPresentation and getSortOrder.
     */
    method GetList(params: Obj, present: (Item, string) -> string, order: (Item, Item, (string, string)) -> Option<int>)
      returns (r: Result<seq<Item>>)
      ensures ReadParams(params).Err? ==> r.Err?
      ensures ReadParams(params).Ok? ==> r == ListOf(schema, ReadParams(params).value, present, order, models)
    {
      var read := ReadParams(params);
      if read.Err? {
        return Err(read.exception);
      }
      var p := read.value;
      var results: seq<Item>;
      if p.filter != "" {
        results := MatchingItems(p, present);
      } else {
        results := AsItems(models);
      }
      if p.sort.Some? && p.sort.value.0 in schema {
        results := SortBy(results, Comparator(order, p.sort.value));
      }
      r := Page(results, p.offset, p.limit, p.getTotal);
    }

    /** The filtering loop of getList: the loaded models that pass the filter, in order. */
    method MatchingItems(p: ListParams, present: (Item, string) -> string) returns (results: seq<Item>)
      ensures results == AsItems(Matching(schema, p, present, models))
    {
      results := [];
      var i := 0;
      while i < |models|
        invariant 0 <= i <= |models|
        invariant results == AsItems(Matching(schema, p, present, models[..i]))
      {
        var d := models[i];
        var passes := ModelPasses(p, present, d);
        MatchingSnoc(schema, p, present, models[..i], d);
        assert models[..i + 1] == models[..i] + [d];
        if passes {
          results := results + [Model(d)];
        }
        i := i + 1;
      }
      assert models[..i] == models;
    }

    /** The inner loop of getList: whether some schema field lets the model through the filter. */
    method ModelPasses(p: ListParams, present: (Item, string) -> string, d: Doc) returns (found: bool)
      ensures found <==> Passes(schema, p, present, d)
    {
      var pending := schema.Keys;
      found := false;
      while pending != {} && !found
        invariant pending <= schema.Keys
        invariant found ==> Passes(schema, p, present, d)
        invariant !found ==> forall f :: f in schema && f !in pending ==> !FieldMatches(schema, p, present, d, f)
        decreases pending
      {
        var field :| field in pending;
        pending := pending - {field};
        if Get(d, field) != VNull && (p.fields.None? || VStr(field) in p.fields.value) {
          if field == ID {
            continue;
          }
          var fieldValue := Lower(Text(d[field]));
          if p.getPresentations {
            fieldValue := Lower(present(Model(d), field));
          }
          if StartsWithIgnoreCase(fieldValue, p.filter) {
            found := true;
          }
        }
      }
    }

    /**
     * getListJSON: getList, then one row per model (its shown fields and
     * `_text` presentations, empty rows dropped) and the total as a number.
     */
    method GetListJSON(params: Obj, present: (Item, string) -> string, order: (Item, Item, (string, string)) -> Option<int>)
      returns (r: Result<seq<Value>>)
      ensures ReadParams(params).Err? ==> r.Err?
      ensures ReadParams(params).Ok? ==> var items := ListOf(schema, ReadParams(params).value, present, order, models);
        r.Err? == items.Err? &&
        (items.Ok? && NoTextClash(schema) ==> r == Ok(RowsOf(schema, FieldsParam(params), Get(params, "get_presentations") != VNull, present, items.value)))
      ensures r.Ok? ==> NoPasswords(r.value)
    {
      var list := GetList(params, present, order);
      if list.Err? {
        return Err(list.exception);
      }
      var rows := ItemsRows(FieldsParam(params), Get(params, "get_presentations") != VNull, present, list.value);
      r := Ok(rows);
    }

    /** The loop of getListJSON over the items of a listing. */
    method ItemsRows(fields: Option<seq<Value>>, getPresentations: bool, present: (Item, string) -> string, items: seq<Item>)
      returns (rows: seq<Value>)
      ensures NoPasswords(rows)
      ensures NoTextClash(schema) ==> rows == RowsOf(schema, fields, getPresentations, present, items)
    {
      rows := [];
      var i := 0;
      ghost var all := RowsOf(schema, fields, getPresentations, present, items);
      assert items[0..] == items;
      assert rows + all == all;
      while i < |items|
        invariant 0 <= i <= |items|
        invariant NoPasswords(rows)
        invariant NoTextClash(schema) ==> rows + RowsOf(schema, fields, getPresentations, present, items[i..]) == all
        decreases |items| - i
      {
        ghost var rest := RowsOf(schema, fields, getPresentations, present, items[i + 1..]);
        RowsOfSplit(schema, fields, getPresentations, present, items, i);
        var next := ItemRow(fields, getPresentations, present, items[i]);
        NoPasswordsAppend(rows, next);
        SeqAssoc(rows, next, rest);
        rows := rows + next;
        i := i + 1;
      }
      assert items[i..] == [];
      assert rows + [] == rows;
    }

    /** The rows of one item in the loop of getListJSON. */
    method ItemRow(fields: Option<seq<Value>>, getPresentations: bool, present: (Item, string) -> string, it: Item)
      returns (next: seq<Value>)
      ensures NoPasswords(next)
      ensures NoTextClash(schema) ==> next == ItemRows(schema, fields, getPresentations, present, it)
    {
      next := [];
      if it.Total? {
        next := TotalRow(it.count);
      } else {
        var row := ModelRow(fields, getPresentations, present, it.doc);
        if |row| > 0 {
          next := [VObj(row)];
        }
      }
    }

    /** The row loop of getListJSON for one model. */
    method ModelRow(fields: Option<seq<Value>>, getPresentations: bool, present: (Item, string) -> string, d: Doc)
      returns (row: Obj)
      ensures "password" !in row
      ensures NoTextClash(schema) ==> row == RowOf(schema, fields, getPresentations, present, d)
    {
      row := map[];
      var pending := schema.Keys;
      while pending != {}
        invariant pending <= schema.Keys
        invariant "password" !in row
        invariant NoTextClash(schema) ==> row == RowOn(schema, fields, getPresentations, present, d, schema.Keys - pending)
        decreases pending
      {
        var field :| field in pending;
        if NoTextClash(schema) {
          RowOnStep(schema, fields, getPresentations, present, d, schema.Keys - pending, field);
        }
        assert schema.Keys - (pending - {field}) == (schema.Keys - pending) + {field};
        pending := pending - {field};
        if Get(d, field) != VNull && (fields.None? || VStr(field) in fields.value) && field != "password" {
          var presentation := present(Model(d), field);
          row := row[field := d[field]];
          if getPresentations && presentation != Text(d[field]) {
            var textKey := field + TEXT_SUFFIX;
            assert textKey[|textKey| - 5..] == "_text";
            row := row[textKey := VStr(presentation)];
          }
        }
      }
      assert schema.Keys - pending == schema.Keys;
    }
  }

  /** The models `keep` accepts, in collection order (Kotlin's `filter`). */
  function Filter(models: seq<Doc>, keep: Doc -> bool): (r: seq<Doc>)
    ensures |r| <= |models|
    ensures forall d :: d in r <==> d in models && keep(d)
  {
    if models == [] then []
    else (if keep(models[0]) then [models[0]] else []) + Filter(models[1..], keep)
  }

  /** A model put in front of keyed models whose `_id`s all differ from its own keeps them keyed. */
  lemma KeyedCons(d: Doc, rest: seq<Doc>)
    requires Keyed(rest) && ID in d
    requires forall e :: e in rest ==> IdText(e) != IdText(d)
    ensures Keyed([d] + rest)
  {
    var r := [d] + rest;
    forall i, j | 0 <= i < j < |r| ensures IdText(r[i]) != IdText(r[j]) {
      assert r[j] == rest[j - 1];
      if i > 0 { assert r[i] == rest[i - 1]; } else { assert rest[j - 1] in rest; }
    }
  }

  /** Dropping models keeps the `_id`s present and distinct. */
  lemma {:induction false} FilterKeyed(models: seq<Doc>, keep: Doc -> bool)
    requires Keyed(models)
    ensures Keyed(Filter(models, keep))
  {
    if models != [] {
      var tail := models[1..];
      assert Keyed(tail) by {
        assert forall i :: 0 <= i < |tail| ==> tail[i] == models[i + 1];
      }
      FilterKeyed(tail, keep);
      if keep(models[0]) {
        forall e | e in Filter(tail, keep) ensures IdText(e) != IdText(models[0]) {
          var j :| 0 <= j < |tail| && tail[j] == e;
          assert models[j + 1] == e;
        }
        KeyedCons(models[0], Filter(tail, keep));
      } else {
        assert Filter(models, keep) == Filter(tail, keep);
      }
    }
  }

  /** Filtering by two predicates in turn is filtering by both. */
  lemma {:induction false} FilterFilter(models: seq<Doc>, p: Doc -> bool, q: Doc -> bool, both: Doc -> bool)
    requires forall i :: 0 <= i < |models| ==> both(models[i]) == (p(models[i]) && q(models[i]))
    ensures Filter(Filter(models, p), q) == Filter(models, both)
  {
    if models != [] {
      var head, tail := models[0], models[1..];
      forall i | 0 <= i < |tail| ensures both(tail[i]) == (p(tail[i]) && q(tail[i])) {
        assert tail[i] == models[i + 1];
      }
      FilterFilter(tail, p, q, both);
      FilterHead(models, p);
      FilterHead(models, both);
      assert both(head) == (p(head) && q(head));
      var inner := Filter(tail, p);
      if p(head) {
        assert Filter(models, p) == [head] + inner;
        FilterHead([head] + inner, q);
        assert ([head] + inner)[1..] == inner;
        assert ([head] + inner)[0] == head;
        assert Filter(Filter(models, p), q) == (if q(head) then [head] else []) + Filter(inner, q);
      } else {
        assert Filter(models, p) == inner;
        assert Filter(models, both) == Filter(tail, both);
      }
    }
  }

  /** One step of the filter, stated on its own so that callers need not unfold it. */
  lemma FilterHead(models: seq<Doc>, keep: Doc -> bool)
    requires models != []
    ensures Filter(models, keep) == (if keep(models[0]) then [models[0]] else []) + Filter(models[1..], keep)
  {
  }

  /** Predicates that agree on every model filter alike. */
  lemma {:induction false} FilterCongruent(models: seq<Doc>, p: Doc -> bool, q: Doc -> bool)
    requires forall d :: d in models ==> p(d) == q(d)
    ensures Filter(models, p) == Filter(models, q)
  {
    if models != [] {
      FilterCongruent(models[1..], p, q);
    }
  }

  /** Filtering out exactly the model at `i` is cutting it out of the list. */
  lemma {:induction false} FilterSkipsOne(models: seq<Doc>, keep: Doc -> bool, i: nat)
    requires i < |models| && !keep(models[i])
    requires forall j :: 0 <= j < |models| && j != i ==> keep(models[j])
    ensures Filter(models, keep) == models[..i] + models[i + 1..]
  {
    hide Filter;
    FilterHead(models, keep);
    var tail := models[1..];
    if i == 0 {
      FilterKeepsAll(tail, keep);
      assert models[..0] + models[1..] == tail;
    } else {
      forall j | 0 <= j < |tail| && j != i - 1 ensures keep(tail[j]) {
        assert tail[j] == models[j + 1];
      }
      FilterSkipsOne(tail, keep, i - 1);
      assert keep(models[0]);
      CutBehindHead(models, i);
    }
  }

  /** Cutting the element at `i > 0` out of a list keeps its head in front of the cut tail. */
  lemma CutBehindHead(models: seq<Doc>, i: nat)
    requires 0 < i < |models|
    ensures models[..i] + models[i + 1..] == [models[0]] + (models[1..][..i - 1] + models[1..][i..])
  {
    assert models[..i] == [models[0]] + models[1..][..i - 1];
    assert models[i + 1..] == models[1..][i..];
  }

  /** A predicate that keeps every model leaves the list as it is. */
  lemma {:induction false} FilterKeepsAll(models: seq<Doc>, keep: Doc -> bool)
    requires forall j :: 0 <= j < |models| ==> keep(models[j])
    ensures Filter(models, keep) == models
  {
    if models != [] {
      FilterKeepsAll(models[1..], keep);
      assert models == [models[0]] + models[1..];
    }
  }

  /** `params["fields"] as? ArrayList<String>`. */
  function FieldsParam(params: Obj): Option<seq<Value>>
  {
    if Get(params, "fields").VArr? then Some(params["fields"].items) else None
  }

  /** Filtering one more model extends the filtered list by that model exactly when it passes. */
  lemma MatchingSnoc(schema: Schema, p: ListParams, present: (Item, string) -> string, s: seq<Doc>, d: Doc)
    ensures AsItems(Matching(schema, p, present, s + [d])) ==
      AsItems(Matching(schema, p, present, s)) + (if Passes(schema, p, present, d) then [Model(d)] else [])
  {
    MatchingAppendOne(schema, p, present, s, d);
    AsItemsAppend(Matching(schema, p, present, s), if Passes(schema, p, present, d) then [d] else []);
  }

  /** The same on the models themselves. */
  lemma {:induction false} MatchingAppendOne(schema: Schema, p: ListParams, present: (Item, string) -> string, s: seq<Doc>, d: Doc)
    ensures Matching(schema, p, present, s + [d]) ==
      Matching(schema, p, present, s) + (if Passes(schema, p, present, d) then [d] else [])
  {
    if s == [] {
      assert [d][1..] == [];
    } else {
      assert (s + [d])[1..] == s[1..] + [d];
      MatchingAppendOne(schema, p, present, s[1..], d);
      var head := if Passes(schema, p, present, s[0]) then [s[0]] else [];
      var last := if Passes(schema, p, present, d) then [d] else [];
      assert Matching(schema, p, present, s + [d]) == head + (Matching(schema, p, present, s[1..]) + last);
      assert head + (Matching(schema, p, present, s[1..]) + last) == (head + Matching(schema, p, present, s[1..])) + last;
    }
  }

  lemma AsItemsAppend(a: seq<Doc>, b: seq<Doc>)
    ensures AsItems(a + b) == AsItems(a) + AsItems(b)
  {
    hide AsItems;
    var whole, parts := AsItems(a + b), AsItems(a) + AsItems(b);
    forall i | 0 <= i < |whole| ensures whole[i] == parts[i] {
      if i < |a| {
        assert (a + b)[i] == a[i];
      } else {
        assert (a + b)[i] == b[i - |a|];
      }
    }
  }

  /**
   * DBModel.addFromJSON on a base collection: the schema fields of `src`
   * are copied into the model; when that succeeds and no model of the
   * collection has the model's `_id`, the model is added (receiving a fresh
   * ObjectId when it has none).
   */
  method AddFromJSON(model: DBModel, src: Doc, collection: DBCollection, freshId: string) returns (ok: bool)
    requires model.Valid() && collection.Valid() && model.schema == collection.schema
    requires forall i :: 0 <= i < |collection.models| ==> IdText(collection.models[i]) != freshId
    modifies model, collection`models
    ensures model.Valid() && collection.Valid()
    ensures ok <==> AbsorbableOn(model.schema, src, model.schema.Keys)
    ensures !ok ==> collection.models == old(collection.models)
    ensures ok && (exists i :: (0 <= i < |old(collection.models)| &&
        Get(old(collection.models)[i], ID) == Get(Absorb(model.schema, old(model.doc), src), ID))) ==>
      collection.models == old(collection.models) && model.doc == Absorb(model.schema, old(model.doc), src)
    ensures ok && !(exists i :: (0 <= i < |old(collection.models)| &&
        Get(old(collection.models)[i], ID) == Get(Absorb(model.schema, old(model.doc), src), ID))) ==>
      var copied := Absorb(model.schema, old(model.doc), src);
      model.doc == (if ID in copied then copied else copied[ID := VStr(freshId)]) &&
      collection.models == old(collection.models) + [model.doc]
  {
    ok := model.CopyFromJSON(src);
    if !ok {
      return;
    }
    var id := model.Get(ID);
    if !(exists i :: 0 <= i < |collection.models| && Get(collection.models[i], ID) == id) {
      collection.AddModel(model, freshId);
    }
  }

  /**
   * DBCollection.addItem: a document without `_id` first receives an
   * ObjectId (`docId`), then a new model of the collection's schema is
   * filled from it and added when its `_id` is new.
   */
  method AddItem(collection: DBCollection, src: Doc, docId: string, freshId: string) returns (ok: bool)
    requires collection.Valid()
    requires forall i :: 0 <= i < |collection.models| ==> IdText(collection.models[i]) != freshId
    modifies collection`models
    ensures collection.Valid()
    ensures var doc := if ID in src then src else src[ID := VId(docId)];
      ok <==> AbsorbableOn(collection.schema, doc, collection.schema.Keys)
    ensures !ok ==> collection.models == old(collection.models)
    ensures ok ==> var doc := if ID in src then src else src[ID := VId(docId)];
      var copied := Absorb(collection.schema, map[], doc);
      (exists i :: 0 <= i < |old(collection.models)| && Get(old(collection.models)[i], ID) == Get(copied, ID)) ==>
        collection.models == old(collection.models)
    ensures ok ==> var doc := if ID in src then src else src[ID := VId(docId)];
      var copied := Absorb(collection.schema, map[], doc);
      !(exists i :: 0 <= i < |old(collection.models)| && Get(old(collection.models)[i], ID) == Get(copied, ID)) ==>
        collection.models == old(collection.models) + [if ID in copied then copied else copied[ID := VStr(freshId)]]
  {
    var doc := src;
    if ID !in doc {
      doc := doc[ID := VId(docId)];
    }
    var model := new DBModel(collection.schema);
    ok := AddFromJSON(model, doc, collection, freshId);
  }
}
