/**
 * models/DBModel.kt: one record of a collection, a document whose fields
 * are typed by the collection's schema. `set` converts each value to the
 * schema type of its field; `addFromJSON` copies the schema fields of a
 * source document.
 */
module DBModels {
  import opened Wrappers
  import opened Strings
  import opened Json

  /** The type names a schema may give a field ("Int", "Long", "Boolean", "String", "Any"). */
  datatype FieldType = IntType | LongType | BooleanType | StringType | AnyType

  function TypeName(t: FieldType): string
  {
    match t
    case IntType => "Int"
    case LongType => "Long"
    case BooleanType => "Boolean"
    case StringType => "String"
    case AnyType => "Any"
  }

  type Schema = map<string, FieldType>
  type Doc = Obj

  const ID := "_id"

  /** The value `set` stores for `value` in a field of type `t`, or the exception it throws. */
  function Coerce(t: FieldType, value: Value): (r: Result<Value>)
    requires value != VNull
    ensures r.Ok? ==> Conforms(t, r.value)
    ensures Conforms(t, value) ==> r == Ok(value)
    ensures t == StringType ==> r == Ok(VStr(Text(value)))
    ensures t == BooleanType ==> (r.Ok? <==> value.VBool?)
  {
    match t
    case IntType =>
      if value.VInt? && IsInt32(value.i) then ParseIntText(value.i); Ok(value)
      else (match ParseInt(Text(value)) case Some(n) => Ok(VInt(n)) case None => Err("NumberFormatException"))
    case LongType =>
      if value.VInt? && LONG_MIN <= value.i <= LONG_MAX then ParseLongText(value.i); Ok(value)
      else (match ParseLong(Text(value)) case Some(n) => Ok(VInt(n)) case None => Err("NumberFormatException"))
    case BooleanType => if value.VBool? then Ok(value) else Err("ClassCastException")
    case StringType => Ok(VStr(Text(value)))
    case AnyType => Ok(value)
  }

  /** A value of the kind `set` stores in a field of type `t`. */
  predicate Conforms(t: FieldType, v: Value)
  {
    match t
    case IntType => v.VInt? && IsInt32(v.i)
    case LongType => v.VInt? && LONG_MIN <= v.i <= LONG_MAX
    case BooleanType => v.VBool?
    case StringType => v.VStr?
    case AnyType => v != VNull
  }

  /** Every field of the document is in the schema and holds a value of its type. */
  predicate WellTyped(schema: Schema, doc: Doc)
  {
    forall k :: k in doc ==> k in schema && Conforms(schema[k], doc[k])
  }

  /** A well-typed document holds no null value. */
  lemma WellTypedHoldsValues(schema: Schema, doc: Doc)
    requires WellTyped(schema, doc)
    ensures forall k :: k in doc ==> doc[k] != VNull
  {
    forall k | k in doc ensures doc[k] != VNull {
      assert Conforms(schema[k], doc[k]);
    }
  }

  /** `model[index] = value`: fields outside the schema are ignored, the others converted. */
  function SetField(schema: Schema, doc: Doc, index: string, value: Value): (r: Result<Doc>)
    requires value != VNull
    ensures index !in schema ==> r == Ok(doc)
    ensures index in schema ==> (r.Ok? <==> Coerce(schema[index], value).Ok?)
    ensures r.Ok? && index in schema ==> r.value == doc[index := Coerce(schema[index], value).value]
    ensures r.Ok? && WellTyped(schema, doc) ==> WellTyped(schema, r.value)
  {
    if index !in schema then Ok(doc)
    else
      match Coerce(schema[index], value)
      case Ok(c) => Ok(doc[index := c])
      case Err(e) => Err(e)
  }

  /**
   * Writing back a value read from a well-typed model changes nothing:
   * `set` is idempotent on the values it produces.
   */
  lemma SetFieldOfStoredValue(schema: Schema, doc: Doc, index: string)
    requires WellTyped(schema, doc) && index in doc
    ensures SetField(schema, doc, index, doc[index]) == Ok(doc)
  {
    assert doc[index := doc[index]] == doc;
  }

  /** Writing a value of the field's type keeps a document well typed. */
  lemma WellTypedWrite(schema: Schema, doc: Doc, index: string, value: Value)
    requires index in schema && Conforms(schema[index], value)
    ensures WellTyped(schema, doc) ==> WellTyped(schema, doc[index := value])
  {
  }

  /** `set` of a value that already has the field's type stores it as it is. */
  lemma SetConforming(schema: Schema, doc: Doc, index: string, value: Value)
    requires value != VNull && index in schema && Conforms(schema[index], value)
    ensures SetField(schema, doc, index, value) == Ok(doc[index := value])
  {
  }

  /** Reading a field right after a successful `set` gives the converted value. */
  lemma GetAfterSet(schema: Schema, doc: Doc, index: string, value: Value)
    requires value != VNull && index in schema
    requires SetField(schema, doc, index, value).Ok?
    ensures Get(SetField(schema, doc, index, value).value, index) == Coerce(schema[index], value).value
    ensures forall k :: k != index ==> Get(SetField(schema, doc, index, value).value, k) == Get(doc, k)
  {
  }

  /** Every source value for a schema field in `keys` is non-null and converts. */
  predicate AbsorbableOn(schema: Schema, src: Doc, keys: set<string>)
  {
    forall k :: k in keys && k in schema && k in src ==> src[k] != VNull && Coerce(schema[k], src[k]).Ok?
  }

  /** `doc` with the schema fields in `keys` that `src` holds converted and copied over. */
  function AbsorbOn(schema: Schema, doc: Doc, src: Doc, keys: set<string>): Doc
    requires AbsorbableOn(schema, src, keys)
  {
    map k | k in doc.Keys + (keys * schema.Keys * src.Keys) ::
      if k in keys && k in schema && k in src then Coerce(schema[k], src[k]).value else doc[k]
  }

  /** Copying one more schema field is one more `set` on the partly copied document. */
  lemma AbsorbOnStep(schema: Schema, doc: Doc, src: Doc, keys: set<string>, key: string)
    requires AbsorbableOn(schema, src, keys + {key}) && key in schema && key !in keys
    ensures key in src ==>
      AbsorbOn(schema, doc, src, keys + {key}) == AbsorbOn(schema, doc, src, keys)[key := Coerce(schema[key], src[key]).value]
    ensures key !in src ==> AbsorbOn(schema, doc, src, keys + {key}) == AbsorbOn(schema, doc, src, keys)
  {
  }

  /** Copying schema fields leaves the fields outside the schema alone. */
  lemma AbsorbOnOutside(schema: Schema, doc: Doc, src: Doc, keys: set<string>)
    requires AbsorbableOn(schema, src, keys)
    ensures forall k :: k !in schema ==> Get(AbsorbOn(schema, doc, src, keys), k) == Get(doc, k)
    ensures WellTyped(schema, doc) ==> WellTyped(schema, AbsorbOn(schema, doc, src, keys))
  {
  }

  /**
   * The copy loop of addFromJSON on the whole schema: the fields of the
   * schema that the source holds are converted and copied, every other
   * field of the model keeps its value.
   */
  function Absorb(schema: Schema, doc: Doc, src: Doc): (r: Doc)
    requires AbsorbableOn(schema, src, schema.Keys)
    ensures forall k :: k in schema && k in src ==> k in r && r[k] == Coerce(schema[k], src[k]).value
    ensures forall k :: !(k in schema && k in src) ==> Get(r, k) == Get(doc, k)
    ensures WellTyped(schema, doc) ==> WellTyped(schema, r)
  {
    AbsorbOn(schema, doc, src, schema.Keys)
  }

  /**
   * DBModel.save against an abstract keyed store standing for the MongoDB
   * collection: an upsert on `_id` that sets the document's fields over the
   * stored record. A model without `_id` is stored under a fresh ObjectId
   * text, which is not written back to the model.
   */
  function StoreSave(store: map<string, Doc>, doc: Doc, freshId: string): (r: map<string, Doc>)
    ensures r.Keys == store.Keys + {if Get(doc, ID) == VNull then freshId else Text(doc[ID])}
    ensures var key := if Get(doc, ID) == VNull then freshId else Text(doc[ID]);
      forall k :: k in doc ==> k in r[key] && r[key][k] == doc[k]
    ensures forall k :: k in store && k != (if Get(doc, ID) == VNull then freshId else Text(doc[ID])) ==> r[k] == store[k]
  {
    var id := if Get(doc, ID) == VNull then VStr(freshId) else doc[ID];
    var key := Text(id);
    var prior := if key in store then store[key] else map[ID := id];
    store[key := prior + doc]
  }

  /** DBModel.remove: the stored record with the model's `_id` is deleted. */
  function StoreRemove(store: map<string, Doc>, doc: Doc): (r: map<string, Doc>)
    ensures r.Keys == store.Keys - {Text(Get(doc, ID))}
    ensures forall k :: k in r ==> r[k] == store[k]
  {
    store - {Text(Get(doc, ID))}
  }

  /** A database record: the collection's schema and the document it fills. */
  class DBModel {
    const schema: Schema
    var doc: Doc

    ghost predicate Valid()
      reads this
    {
      WellTyped(schema, doc)
    }

    constructor (schema: Schema)
      ensures this.schema == schema && doc == map[]
      ensures Valid()
    {
      this.schema := schema;
      doc := map[];
    }

    /** `model[index]`: the stored value, null when the field is absent. */
    function Get(index: string): (v: Value)
      reads this
      ensures v != VNull ==> index in doc && v == doc[index]
      ensures index !in doc ==> v == VNull
    {
      Json.Get(doc, index)
    }

    /** `model[index] = value`; `ok` is false when the conversion throws, and then nothing changes. */
    method Set(index: string, value: Value) returns (ok: bool)
      requires value != VNull
      modifies this
      ensures ok <==> SetField(schema, old(doc), index, value).Ok?
      ensures doc == if ok then SetField(schema, old(doc), index, value).value else old(doc)
      ensures old(Valid()) ==> Valid()
    {
      if index in schema {
        match Coerce(schema[index], value)
        case Ok(c) =>
          doc := doc[index := c];
          ok := true;
        case Err(_) =>
          ok := false;
      } else {
        ok := true;
      }
    }

    /**
     * One step of the addFromJSON loop: when the source holds the field, it
     * is set on the model; `ok` is false when the source value is null or
     * does not convert, and then nothing changes.
     */
    method CopyField(src: Doc, key: string) returns (ok: bool)
      requires key in schema
      modifies this
      ensures ok <==> AbsorbableOn(schema, src, {key})
      ensures ok && key in src ==> doc == old(doc)[key := Coerce(schema[key], src[key]).value]
      ensures !ok || key !in src ==> doc == old(doc)
    {
      ok := true;
      if key in src {
        if src[key] == VNull {
          return false;
        }
        ok := Set(key, src[key]);
      }
    }

    /**
     * The loop of addFromJSON over the schema (in the schema's own order):
     * each field the source holds is set on the model. `ok` is false when a
     * source value is null (a NullPointerException) or does not convert; the
     * fields visited before then stay set. Fields outside the schema never change.
     */
    method CopyFromJSON(src: Doc) returns (ok: bool)
      modifies this
      ensures ok <==> AbsorbableOn(schema, src, schema.Keys)
      ensures ok ==> doc == Absorb(schema, old(doc), src)
      ensures forall k :: k !in schema ==> Json.Get(doc, k) == Json.Get(old(doc), k)
      ensures old(Valid()) ==> Valid()
    {
      var pending := schema.Keys;
      while pending != {}
        invariant pending <= schema.Keys
        invariant AbsorbableOn(schema, src, schema.Keys - pending)
        invariant doc == AbsorbOn(schema, old(doc), src, schema.Keys - pending)
        decreases pending
      {
        var key :| key in pending;
        ghost var done := schema.Keys - pending;
        var copied := CopyField(src, key);
        if !copied {
          assert !AbsorbableOn(schema, src, schema.Keys) by {
            assert !AbsorbableOn(schema, src, {key});
            assert key in schema.Keys && key in src;
          }
          AbsorbOnOutside(schema, old(doc), src, done);
          return false;
        }
        AbsorbOnStep(schema, old(doc), src, done, key);
        assert schema.Keys - (pending - {key}) == done + {key};
        pending := pending - {key};
      }
      assert schema.Keys - pending == schema.Keys;
      AbsorbOnOutside(schema, old(doc), src, schema.Keys);
      return true;
    }
  }
}
