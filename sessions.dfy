/**
 * models/Session.kt and interactors/Sessions.kt: a session links a user
 * to the room they are in. Sessions are added only for loaded users and
 * rooms, and the collection (in memory and in the store) holds at most
 * one session per user.
 */
module Sessions {
  import opened Wrappers
  import opened Json
  import opened DBModels
  import opened Queries
  import opened DBCollections
  import opened ChatApp

  // ------------------------------------------------------------ properties

  /** No two sessions of the list belong to the same user. */
  predicate OnePerUser(models: seq<Doc>)
  {
    forall i, j :: 0 <= i < j < |models| && Get(models[i], "user_id") != VNull ==>
      Get(models[i], "user_id") != Get(models[j], "user_id")
  }

  /** The session's user and room are both loaded (the filter of Sessions.loadList). */
  predicate Linked(users: seq<Doc>, rooms: seq<Doc>, s: Doc)
  {
    Get(s, "user_id") != VNull &&
    ById(users, Text(Get(s, "user_id"))).Some? && ById(rooms, Text(Get(s, "room"))).Some?
  }

  function Linker(users: seq<Doc>, rooms: seq<Doc>): Doc -> bool
  {
    s => Linked(users, rooms, s)
  }

  /** The position of the first session whose `user_id` is `uid`, or |models| when there is none. */
  function UserSessionIndex(models: seq<Doc>, uid: Value): (i: nat)
    ensures i <= |models|
    ensures forall j :: 0 <= j < i ==> Get(models[j], "user_id") != uid
    ensures i < |models| ==> Get(models[i], "user_id") == uid
  {
    if models == [] then 0
    else if Get(models[0], "user_id") == uid then 0
    else 1 + UserSessionIndex(models[1..], uid)
  }

  /** getBy("user_id", uid) finds the session at UserSessionIndex. */
  lemma ByUserAtIndex(models: seq<Doc>, uid: Value)
    ensures var i := UserSessionIndex(models, uid);
      By(models, "user_id", uid) == if i < |models| then Some(models[i]) else None
  {
    var i := UserSessionIndex(models, uid);
    var r := By(models, "user_id", uid);
    if i < |models| {
      assert models[i] in models;
      var k :| 0 <= k < |models| && models[k] == r.value && Get(models[k], "user_id") == uid &&
        forall j :: 0 <= j < k ==> Get(models[j], "user_id") != uid;
      assert k == i;
    } else {
      assert forall d :: d in models ==> Get(d, "user_id") != uid;
    }
  }

  // ------------------------------------------------------------- addModel

  /** Some model already has the document's `_id` (compared as values). */
  predicate Duplicate(models: seq<Doc>, d: Doc)
  {
    exists i :: 0 <= i < |models| && Get(models[i], ID) == Get(d, ID)
  }

  /** The document as DBCollection.addModel stores it: with a fresh ObjectId when it has no `_id`. */
  function Stamped(d: Doc, freshId: string): (r: Doc)
    ensures forall k :: k != ID ==> Get(r, k) == Get(d, k)
  {
    if ID in d then d else d[ID := VStr(freshId)]
  }

  /** DBCollection.addModel on the list of models. */
  function BaseAdd(models: seq<Doc>, d: Doc, freshId: string): seq<Doc>
  {
    if Duplicate(models, d) then models else models + [Stamped(d, freshId)]
  }

  /** The user guard of Sessions.addModel as written: it looks `user_id` up among the users. */
  function AddSessionAsWritten(users: seq<Doc>, models: seq<Doc>, d: Doc, freshId: string): (r: seq<Doc>)
    ensures r == models || r == models + [Stamped(d, freshId)]
  {
    if By(users, "user_id", VStr(Text(Get(d, "user_id")))).None? then BaseAdd(models, d, freshId) else models
  }

  /**
   * Sessions.addModel as its documentation and tests intend: a session is
   * added only when no session of the collection has its `user_id`.
   */
  function AddSession(models: seq<Doc>, d: Doc, freshId: string): (r: seq<Doc>)
    ensures r == models || r == models + [Stamped(d, freshId)]
  {
    if By(models, "user_id", VStr(Text(Get(d, "user_id")))).None? then BaseAdd(models, d, freshId) else models
  }

  /** A session of a user without one and with a new `_id` is appended, stamped. */
  lemma AddSessionNew(models: seq<Doc>, d: Doc, freshId: string)
    requires By(models, "user_id", VStr(Text(Get(d, "user_id")))).None? && !Duplicate(models, d)
    ensures AddSession(models, d, freshId) == models + [Stamped(d, freshId)]
  {
  }

  /**
   * A user document never has a `user_id` field, so the guard as written
   * never refuses: Sessions.addModel behaves like DBCollection.addModel.
   */
  lemma AsWrittenIgnoresUsers(users: seq<Doc>, models: seq<Doc>, d: Doc, freshId: string)
    requires forall i :: 0 <= i < |users| ==> WellTyped(UserSchema, users[i])
    ensures AddSessionAsWritten(users, models, d, freshId) == BaseAdd(models, d, freshId)
  {
    forall u | u in users ensures Get(u, "user_id") == VNull {
      var i :| 0 <= i < |users| && users[i] == u;
      assert "user_id" !in UserSchema;
    }
  }

  /**
   * The second case of SessionsTest.addModel: with session "s1" of user
   * "u1" in the collection, a new session of "u1" without `_id` is added
   * by the code as written, giving the user two sessions.
   */
  lemma AsWrittenAddsSecondSession()
    ensures var users := [map[ID := VStr("u1")]];
      var models := [map[ID := VStr("s1"), "user_id" := VStr("u1")]];
      var d := map["user_id" := VStr("u1")];
      OnePerUser(models) && !OnePerUser(AddSessionAsWritten(users, models, d, "s3"))
  {
    var users := [map[ID := VStr("u1")]];
    var models := [map[ID := VStr("s1"), "user_id" := VStr("u1")]];
    var d := map["user_id" := VStr("u1")];
    assert Get(users[0], "user_id") == VNull;
    assert !Duplicate(models, d) by {
      assert Get(models[0], ID) != Get(d, ID);
    }
    var r := AddSessionAsWritten(users, models, d, "s3");
    assert r == models + [Stamped(d, "s3")];
    assert Get(r[0], "user_id") == Get(r[1], "user_id") == VStr("u1");
  }

  /** With the intended guard a user never gets a second session. */
  lemma AddSessionKeepsOnePerUser(models: seq<Doc>, d: Doc, freshId: string)
    requires OnePerUser(models) && WellTyped(SessionSchema, d)
    ensures OnePerUser(AddSession(models, d, freshId))
  {
    var r := AddSession(models, d, freshId);
    if r != models {
      var uid := Get(d, "user_id");
      assert uid != VNull ==> VStr(Text(uid)) == uid;
      forall i, j | 0 <= i < j < |r| && Get(r[i], "user_id") != VNull
        ensures Get(r[i], "user_id") != Get(r[j], "user_id")
      {
        if j == |models| {
          assert r[i] in models;
          assert Get(r[j], "user_id") == uid;
        }
      }
    }
  }

  /**
   * Sessions.addModel (with the intended guard): the model is added, and
   * stamped with a fresh ObjectId when it has none, unless a session of
   * its user or a model with its `_id` is already there.
   */
  method AddModel(app: App, model: DBModel, freshId: string)
    requires app.Valid() && model.Valid() && model.schema == SessionSchema
    requires forall i :: 0 <= i < |app.sessions.models| ==> IdText(app.sessions.models[i]) != freshId
    modifies app.sessions`models, model
    ensures app.Valid() && model.Valid()
    ensures app.sessions.models == AddSession(old(app.sessions.models), old(model.doc), freshId)
    ensures model.doc == if app.sessions.models == old(app.sessions.models) then old(model.doc)
      else Stamped(old(model.doc), freshId)
  {
    var uid := model.Get("user_id");
    if By(app.sessions.models, "user_id", VStr(Text(uid))).None? {
      app.sessions.AddModel(model, freshId);
    }
  }

  // ------------------------------------------------------- the session model

  /** The room test at the head of Session.addFromJSON: the source names a loaded room, or the session already has one. */
  predicate RoomAccepted(rooms: seq<Doc>, doc: Doc, src: Doc)
  {
    if "room" !in src then !(Get(doc, "room") == VNull || Text(Get(doc, "room")) == "")
    else ById(rooms, Text(src["room"])).Some?
  }

  /** The source of Session.addFromJSON with a `user_id` naming no loaded user dropped. */
  function LinkSource(users: seq<Doc>, src: Doc): (r: Doc)
    ensures "user_id" in r ==> ById(users, Text(r["user_id"])).Some?
    ensures forall k :: k != "user_id" ==> Get(r, k) == Get(src, k)
  {
    if "user_id" in src && ById(users, Text(src["user_id"])).None? then src - {"user_id"} else src
  }

  /** The user a session is linked to after Session.addFromJSON reads `src`. */
  function LinkUser(users: seq<Doc>, user: Doc, src: Doc): Doc
  {
    if "user_id" in src && ById(users, Text(src["user_id"])).Some? then ById(users, Text(src["user_id"])).value
    else user
  }

  /** A chat session: its database document and the user it belongs to. */
  class Session {
    const model: DBModel
    var user: Doc

    ghost predicate Valid()
      reads this, model
    {
      model.schema == SessionSchema && model.Valid()
    }

    /** A session of a user with an `_id`: its `user_id` is the user's `_id` as text. */
    constructor (user: Doc)
      requires Get(user, ID) != VNull
      ensures Valid() && fresh(model) && this.user == user
      ensures model.doc == map["user_id" := VStr(Text(user[ID]))]
    {
      this.user := user;
      var m := new DBModel(SessionSchema);
      var ok := m.Set("user_id", user[ID]);
      model := m;
    }

    /**
     * Session.addFromJSON: nothing happens unless the source names a loaded
     * room (or, without a room, the session has one); a source `user_id`
     * naming a loaded user re-links the session, an unknown one is dropped;
     * then the schema fields are copied and the session is added through
     * Sessions.addModel unless a model has its `_id`. `ok` is false when
     * the copy throws.
     */
    method AddFromJSON(app: App, src: Doc, freshId: string) returns (ok: bool)
      requires Valid() && app.Valid()
      requires forall i :: 0 <= i < |app.sessions.models| ==> IdText(app.sessions.models[i]) != freshId
      modifies this, model, app.sessions`models
      ensures Valid() && app.Valid()
      ensures !RoomAccepted(app.rooms.models, old(model.doc), src) ==>
        ok && app.sessions.models == old(app.sessions.models) && model.doc == old(model.doc) && user == old(user)
      ensures RoomAccepted(app.rooms.models, old(model.doc), src) ==>
        user == LinkUser(app.users.models, old(user), src) &&
        (ok <==> AbsorbableOn(SessionSchema, LinkSource(app.users.models, src), SessionSchema.Keys))
      ensures !ok ==> app.sessions.models == old(app.sessions.models)
      ensures RoomAccepted(app.rooms.models, old(model.doc), src) && ok ==>
        var d := Absorb(SessionSchema, old(model.doc), LinkSource(app.users.models, src));
        app.sessions.models == AddSession(old(app.sessions.models), d, freshId) &&
        model.doc == if app.sessions.models == old(app.sessions.models) then d else Stamped(d, freshId)
    {
      if "room" !in src {
        var room := model.Get("room");
        if room == VNull || Text(room) == "" {
          return true;
        }
      } else if ById(app.rooms.models, Text(src["room"])).None? {
        return true;
      }
      var doc := src;
      if "user_id" in doc {
        var found := ById(app.users.models, Text(doc["user_id"]));
        if found.Some? {
          user := found.value;
        } else {
          doc := doc - {"user_id"};
        }
      }
      ok := CopyAndAdd(app, doc, freshId);
    }

    /** The inherited part of Session.addFromJSON: copy the schema fields, then add through Sessions.addModel. */
    method CopyAndAdd(app: App, src: Doc, freshId: string) returns (ok: bool)
      requires Valid() && app.Valid()
      requires forall i :: 0 <= i < |app.sessions.models| ==> IdText(app.sessions.models[i]) != freshId
      modifies model, app.sessions`models
      ensures Valid() && app.Valid()
      ensures ok <==> AbsorbableOn(SessionSchema, src, SessionSchema.Keys)
      ensures !ok ==> app.sessions.models == old(app.sessions.models)
      ensures ok ==> var d := Absorb(SessionSchema, old(model.doc), src);
        app.sessions.models == AddSession(old(app.sessions.models), d, freshId) &&
        model.doc == if app.sessions.models == old(app.sessions.models) then d else Stamped(d, freshId)
    {
      ok := model.CopyFromJSON(src);
      if !ok {
        return;
      }
      var id := model.Get(ID);
      if !(exists i :: 0 <= i < |app.sessions.models| && Get(app.sessions.models[i], ID) == id) {
        AddModel(app, model, freshId);
      } else {
        assert Duplicate(app.sessions.models, model.doc);
      }
    }

    /** Session.save. */
    method Save(app: App, freshId: string)
      requires app.Valid()
      modifies app.sessions`stored
      ensures app.Valid()
      ensures app.sessions.stored ==
        SaveSession(app.users.models, app.rooms.models, old(app.sessions.stored), model.doc, freshId)
    {
      SaveDoc(app, model.doc, freshId);
    }
  }

  /** Session.save of a session document: the store write SaveSession decides. */
  method SaveDoc(app: App, d: Doc, freshId: string)
    requires app.Valid()
    modifies app.sessions`stored
    ensures app.Valid()
    ensures app.sessions.stored == SaveSession(app.users.models, app.rooms.models, old(app.sessions.stored), d, freshId)
  {
    if ById(app.users.models, Text(Get(d, "user_id"))).None? {
      return;
    }
    var room := Get(d, "room");
    if Text(room) != "" && room != VNull && ById(app.rooms.models, Text(room)).None? {
      return;
    }
    if exists k :: k in app.sessions.stored && SameUserOtherId(app.sessions.stored[k], d) {
      return;
    }
    app.sessions.Save(d, freshId);
  }

  /** Session construction, where a user without `_id` throws "User not found". */
  method NewSession(user: Doc) returns (r: Result<Session>)
    ensures r.Err? <==> Get(user, ID) == VNull
    ensures r.Ok? ==> fresh(r.value) && fresh(r.value.model) && r.value.Valid() && r.value.user == user
    ensures r.Ok? ==> r.value.model.doc == map["user_id" := VStr(Text(user[ID]))]
  {
    if Get(user, ID) == VNull {
      return Err("User not found");
    }
    var s := new Session(user);
    return Ok(s);
  }

  // ------------------------------------------------------------------ save

  /** A stored session of the same user under another `_id` (the query condition of Session.save). */
  predicate SameUserOtherId(stored: Doc, d: Doc)
  {
    Get(stored, "user_id") == Get(d, "user_id") && Get(stored, ID) != Get(d, ID)
  }

  /**
   * Session.save: the session is written only when its user is loaded,
   * its room (when it names one) is loaded, and the store holds no
   * session of the same user under another `_id`.
   */
  function SaveSession(users: seq<Doc>, rooms: seq<Doc>, stored: map<string, Doc>, d: Doc, freshId: string): map<string, Doc>
  {
    if ById(users, Text(Get(d, "user_id"))).None? then stored
    else if Text(Get(d, "room")) != "" && Get(d, "room") != VNull && ById(rooms, Text(Get(d, "room"))).None? then stored
    else if exists k :: k in stored && SameUserOtherId(stored[k], d) then stored
    else StoreSave(stored, d, freshId)
  }

  /** Every stored record is filed under the text of its own non-null `_id`. */
  predicate StoreKeyed(stored: map<string, Doc>)
  {
    forall k :: k in stored ==> Get(stored[k], ID) != VNull && Text(stored[k][ID]) == k
  }

  /** No two stored sessions belong to the same user. */
  predicate StoreOnePerUser(stored: map<string, Doc>)
  {
    forall k1, k2 :: k1 in stored && k2 in stored && k1 != k2 && Get(stored[k1], "user_id") != VNull ==>
      Get(stored[k1], "user_id") != Get(stored[k2], "user_id")
  }

  /** The key StoreSave files a document under. */
  function SaveKey(d: Doc, freshId: string): string
  {
    if Get(d, ID) == VNull then freshId else Text(d[ID])
  }

  /** The record StoreSave writes keeps the key's `_id`, and its user unless the document names one. */
  lemma StoreSaveRecord(stored: map<string, Doc>, d: Doc, freshId: string)
    requires StoreKeyed(stored) && WellTyped(SessionSchema, d)
    ensures var r := StoreSave(stored, d, freshId); var key := SaveKey(d, freshId);
      Get(r[key], ID) != VNull && Text(r[key][ID]) == key &&
      Get(r[key], "user_id") == (if "user_id" in d then d["user_id"]
        else if key in stored then Get(stored[key], "user_id") else VNull)
  {
    var key := SaveKey(d, freshId);
    var id := if Get(d, ID) == VNull then VStr(freshId) else d[ID];
    var prior := if key in stored then stored[key] else map[ID := id];
    assert StoreSave(stored, d, freshId)[key] == prior + d;
  }

  /** The stored sessions other than the one written have an `_id` other than the document's. */
  lemma OthersHaveOtherIds(stored: map<string, Doc>, d: Doc, freshId: string)
    requires StoreKeyed(stored)
    ensures forall k :: k in stored && k != SaveKey(d, freshId) ==> Get(stored[k], ID) != Get(d, ID)
  {
    forall k | k in stored && k != SaveKey(d, freshId) ensures Get(stored[k], ID) != Get(d, ID) {
      assert Text(Get(stored[k], ID)) == k;
    }
  }

  /** Session.save keeps the store keyed and holding at most one session per user. */
  lemma SaveKeepsOnePerUser(users: seq<Doc>, rooms: seq<Doc>, stored: map<string, Doc>, d: Doc, freshId: string)
    requires StoreKeyed(stored) && StoreOnePerUser(stored)
    requires WellTyped(SessionSchema, d)
    ensures var r := SaveSession(users, rooms, stored, d, freshId); StoreKeyed(r) && StoreOnePerUser(r)
  {
    var r := SaveSession(users, rooms, stored, d, freshId);
    if r == StoreSave(stored, d, freshId) && !exists k :: k in stored && SameUserOtherId(stored[k], d) {
      SavedKeyed(stored, d, freshId);
      SavedOnePerUser(stored, d, freshId);
    }
  }

  /** StoreSave keeps the store keyed. */
  lemma SavedKeyed(stored: map<string, Doc>, d: Doc, freshId: string)
    requires StoreKeyed(stored) && WellTyped(SessionSchema, d)
    ensures StoreKeyed(StoreSave(stored, d, freshId))
  {
    StoreSaveRecord(stored, d, freshId);
  }

  /** StoreSave of a session whose user has no session under another `_id` keeps one session per user. */
  lemma SavedOnePerUser(stored: map<string, Doc>, d: Doc, freshId: string)
    requires StoreKeyed(stored) && StoreOnePerUser(stored) && WellTyped(SessionSchema, d)
    requires forall k :: k in stored ==> !SameUserOtherId(stored[k], d)
    ensures StoreOnePerUser(StoreSave(stored, d, freshId))
  {
    var r := StoreSave(stored, d, freshId);
    var key := SaveKey(d, freshId);
    StoreSaveRecord(stored, d, freshId);
    OthersHaveOtherIds(stored, d, freshId);
    var uid := Get(r[key], "user_id");
    forall k | k in r && k != key ensures Get(r[k], "user_id") != uid || Get(r[k], "user_id") == VNull {
      assert r[k] == stored[k];
      if "user_id" in d {
        assert !SameUserOtherId(stored[k], d);
      }
    }
  }

  // -------------------------------------------------------------- addItem

  /**
   * Sessions.addItem on the in-memory list: a document whose `user_id`
   * names a loaded user, whose user has no session under another `_id`,
   * and which names a loaded room, becomes a new session (a copy of its
   * schema fields) through Session.addFromJSON. Err("ConversionFailed")
   * stands for the exception the field copy throws: a NullPointerException
   * for a null value, or the NumberFormatException or ClassCastException of
   * a value that does not convert; which field fails first depends on the
   * schema map's iteration order, so the model does not name one.
   */
  function SessionAddItem(users: seq<Doc>, rooms: seq<Doc>, models: seq<Doc>, src: Doc, freshId: string): (r: Result<seq<Doc>>)
  {
    if "user_id" !in src || ById(users, Text(src["user_id"])).None? then Ok(models)
    else
      var u := ById(users, Text(src["user_id"])).value;
      var existing := By(models, "user_id", VStr(Text(src["user_id"])));
      if existing.Some? && Get(existing.value, ID) != Get(src, ID) then Ok(models)
      else if Get(u, ID) == VNull then Err("User not found")
      else
        var start := map["user_id" := VStr(Text(u[ID]))];
        if !RoomAccepted(rooms, start, src) then Ok(models)
        else if !AbsorbableOn(SessionSchema, src, SessionSchema.Keys) then Err("ConversionFailed")
        else Ok(AddSession(models, Absorb(SessionSchema, start, src), freshId))
  }

  /** A session copied from a source naming a loaded user and a loaded room is linked. */
  lemma CopiedSessionLinked(users: seq<Doc>, rooms: seq<Doc>, start: Doc, src: Doc, freshId: string)
    requires "user_id" in src && ById(users, Text(src["user_id"])).Some?
    requires "room" in src && ById(rooms, Text(src["room"])).Some?
    requires AbsorbableOn(SessionSchema, src, SessionSchema.Keys)
    ensures Linked(users, rooms, Stamped(Absorb(SessionSchema, start, src), freshId))
  {
    var d := Absorb(SessionSchema, start, src);
    assert "user_id" in SessionSchema && "room" in SessionSchema;
    assert Get(d, "user_id") == VStr(Text(src["user_id"]));
    assert Get(d, "room") == VStr(Text(src["room"]));
  }

  /** A session added by Sessions.addItem has a loaded user and a loaded room. */
  lemma AddItemAddsLinked(users: seq<Doc>, rooms: seq<Doc>, models: seq<Doc>, src: Doc, freshId: string)
    requires SessionAddItem(users, rooms, models, src, freshId).Ok?
    ensures var r := SessionAddItem(users, rooms, models, src, freshId).value;
      r == models || (|r| == |models| + 1 && r[..|models|] == models && Linked(users, rooms, r[|models|]))
  {
    var r := SessionAddItem(users, rooms, models, src, freshId).value;
    if r != models {
      var u := ById(users, Text(src["user_id"])).value;
      var start := map["user_id" := VStr(Text(u[ID]))];
      var d := Absorb(SessionSchema, start, src);
      assert r == models + [Stamped(d, freshId)];
      assert "room" in src by {
        assert Get(start, "room") == VNull;
      }
      CopiedSessionLinked(users, rooms, start, src, freshId);
      assert r[..|models|] == models;
    }
  }

  /** Sessions.addItem never gives a user a second session. */
  lemma AddItemKeepsOnePerUser(users: seq<Doc>, rooms: seq<Doc>, models: seq<Doc>, src: Doc, freshId: string)
    requires OnePerUser(models)
    requires SessionAddItem(users, rooms, models, src, freshId).Ok?
    ensures OnePerUser(SessionAddItem(users, rooms, models, src, freshId).value)
  {
    if "user_id" in src && ById(users, Text(src["user_id"])).Some? {
      var u := ById(users, Text(src["user_id"])).value;
      var start := if Get(u, ID) == VNull then map[] else map["user_id" := VStr(Text(u[ID]))];
      if Get(u, ID) != VNull && RoomAccepted(rooms, start, src) && AbsorbableOn(SessionSchema, src, SessionSchema.Keys) {
        assert WellTyped(SessionSchema, start);
        AddSessionKeepsOnePerUser(models, Absorb(SessionSchema, start, src), freshId);
      }
    }
  }

  /** Sessions.addItem. */
  method AddItem(app: App, src: Doc, freshId: string) returns (ok: bool)
    requires app.Valid()
    requires forall i :: 0 <= i < |app.sessions.models| ==> IdText(app.sessions.models[i]) != freshId
    modifies app.sessions`models
    ensures app.Valid()
    ensures var r := SessionAddItem(app.users.models, app.rooms.models, old(app.sessions.models), src, freshId);
      (ok <==> r.Ok?) && app.sessions.models == if ok then r.value else old(app.sessions.models)
  {
    if "user_id" !in src {
      return true;
    }
    var found := ById(app.users.models, Text(src["user_id"]));
    if found.None? {
      return true;
    }
    var existing := By(app.sessions.models, "user_id", VStr(Text(src["user_id"])));
    if existing.Some? && Get(existing.value, ID) != Get(src, ID) {
      return true;
    }
    var session := NewSession(found.value);
    if session.Err? {
      return false;
    }
    ghost var start := session.value.model.doc;
    assert LinkSource(app.users.models, src) == src;
    ok := session.value.AddFromJSON(app, src, freshId);
  }

  // ------------------------------------------------------------- loadList

  /** Filtering sessions never gives a user a second session. */
  lemma {:induction false} FilterKeepsOnePerUser(models: seq<Doc>, keep: Doc -> bool)
    requires OnePerUser(models)
    ensures OnePerUser(Filter(models, keep))
  {
    if models != [] {
      var tail := models[1..];
      assert OnePerUser(tail) by {
        assert forall i :: 0 <= i < |tail| ==> tail[i] == models[i + 1];
      }
      FilterKeepsOnePerUser(tail, keep);
      var rest := Filter(tail, keep);
      if keep(models[0]) {
        var r := [models[0]] + rest;
        forall i, j | 0 <= i < j < |r| && Get(r[i], "user_id") != VNull
          ensures Get(r[i], "user_id") != Get(r[j], "user_id")
        {
          assert r[j] == rest[j - 1] && rest[j - 1] in tail;
          if i == 0 {
            var k :| 0 <= k < |tail| && tail[k] == rest[j - 1];
            assert models[k + 1] == rest[j - 1];
          } else {
            assert r[i] == rest[i - 1];
          }
        }
      } else {
        assert Filter(models, keep) == rest;
      }
    }
  }

  /**
   * The filter Sessions.loadList applies after reading the store: only
   * the sessions whose user and room are loaded stay.
   */
  method KeepLinked(app: App)
    requires app.Valid()
    modifies app.sessions`models
    ensures app.Valid()
    ensures app.sessions.models == Filter(old(app.sessions.models), Linker(app.users.models, app.rooms.models))
  {
    app.sessions.Retain(Linker(app.users.models, app.rooms.models));
  }
}
