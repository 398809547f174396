# chatter in Dafny

A model of the request-handling core of *chatter*, a chat server written in
Kotlin that talks JSON over WebSockets and keeps its users, rooms and
sessions in MongoDB. The model covers the layer between the transport and
the database:

- **Documents and collections** (`dbmodel.dfy`, `dbcollection.dfy`,
  `queries.dfy`): a model is a document typed by its collection's schema
  (`Int`, `String`, `Boolean`, `Any`); `set` converts a value to the
  field's type. A `DBCollection` is a class over the list of loaded models,
  with its iterator cursor and an abstract keyed store that stands for the
  MongoDB collection. Lookups by `_id` and by field, the text filter, the
  sort comparator, the stable sort, paging and the JSON rows of
  `getListJSON` are pure functions; `addModel`, `remove`, `detach`,
  `next`/`hasNext` and the loops of `getList` are methods on the class.
- **JSON helpers** (`json.dfy`, `strings.dfy`): the classification of
  JSON-array parameters, `toJSONObject`, the stringification pass of
  `toJSONString`, and the JVM string operations the server relies on
  (`parseInt`/`parseLong` with their range checks, `toInt` wrap-around,
  `trim`, case mapping, `compareTo`).
- **Users and sessions** (`users.dfy`, `sessions.dfy`): registration,
  activation, login (by password, or by user id and session id), profile
  updates that write each field as it passes, removal of users with their
  sessions, and the user fields' presentations and sort order. Sessions
  link a loaded user to a loaded room. With the corrected `addModel`
  guard (see "## Findings") the collection keeps at most one session per
  user; the guard as written (`Sessions.AddSessionAsWritten`) never
  refuses.
- **Controllers** (`websocket_controller.dfy`, `login_controller.dfy`,
  `user_controller.dfy`, `admin_*.dfy`, `action_router.dfy`): the
  `auth`/`before`/`after` middleware, the answers of `register_user`,
  `login_user`, `logout_user` and `update_user`, the admin actions with
  their list-query validator and field validation chain, and the router
  that checks `request_id` and picks the first controller knowing the
  action.

What the server calls but does not define (the JSON text parser, BCrypt,
the e-mail validator, `User.isActive`/`toJSON`, the response-code messages,
date formatting, the clock and the session timeout) is a field of the
`Env` value in `platform.dfy`, fixed for one request. Fresh ObjectIds and
whether an activation e-mail could be sent are parameters of the calls
that need them. `app.dfy` holds the three collections and the message
center's pending image uploads.

Each collection's `Valid()` says that its loaded models conform to the
schema and have distinct `_id`s, and that its cursor is not negative. Every method
that changes a collection keeps `Valid()` and states its new models and
store as functions of the old ones.

Where the documentation and the code disagree, the model follows the
code, except for the six defects listed under "## Findings": there the
main members (`Sessions.AddModel`, `ActionRouters.ProcessAction`,
`Users.RemoveUsers`, `Users.Login`, `AdminControllers.AddUser` and
`AdminValidation.ValidationOf`) take the evidently intended behaviour, and
the members named in the as-written column model the code as it stands.
The user list sorts `active` and `role` by their presentation text
("Active" before "Inactive"), which is not the order false < true.
`getList` raises an exception for an offset past the end, and the model
answers that case with `Err`. The order in which `prepareListQuery` reads
the entries of the sort object is a `HashMap`'s, and the model lets any
entry be first.

## Model

| member | source | states |
|---|---|---|
| Json.TextEmpty | src/main/kotlin/interactors/Users.kt:82-93 | `toString().isEmpty()` holds exactly for the empty string, ObjectId or enum name: null, numbers and containers are never "empty" |
| Json.ParseJSONArray | src/main/kotlin/utils/json.kt:37-77 | status ok exactly when the value is, or parses to, a non-empty array, and then the result is that array; text that does not parse to an array is INCORRECT_FIELD_VALUE; everything else is FIELD_IS_EMPTY; errors name the field "fields" |
| Json.ParseJSONArrayFromRequest | src/main/kotlin/utils/json.kt:93-99 | a missing field is FIELD_IS_EMPTY; an ok response comes only from a present field and never carries an empty array |
| Json.ToJSONObject | src/main/kotlin/utils/json.kt:107-124 | an object is returned as it is, text only when it parses to an object, anything else gives null |
| Json.StringifyValue | src/main/kotlin/utils/json.kt:19-23 | strings, numbers and booleans are kept; every other value becomes its text, so the result is always primitive |
| Json.StringifyProperties | src/main/kotlin/utils/json.kt:18-26 | the rewrite keeps the keys, leaves only primitive values, keeps primitive ones, and is idempotent |
| Json.ToJSONString | src/main/kotlin/utils/json.kt:18-26 | the in-place loop leaves the object equal to Stringify of the old object |
| Platform.Now | src/main/kotlin/interactors/Users.kt:187 | `(currentTimeMillis/1000).toInt()` is a 32-bit value, equal to the seconds while they fit |
| Strings.WrapInt32 | src/main/kotlin/interactors/Users.kt:187 | `Long.toInt()` yields a 32-bit value congruent to its input modulo 2^32, and is the identity on 32-bit values |
| Strings.ParseDecimal | src/main/kotlin/controllers/AdminController.kt:541 | a parsed number lies in the type's range and comes from text starting with a sign or a digit |
| Strings.ParseInt | src/main/kotlin/interactors/Users.kt:188 | `toInt()` succeeds only with a 32-bit value |
| Strings.ParseLong | src/main/kotlin/controllers/UserController.kt:87 | `toLong()` succeeds only with a 64-bit value |
| Strings.NatTextDigits | src/main/kotlin/interactors/Users.kt:188 | the text of a natural number is a non-empty digit string whose value is the number |
| Strings.ParseIntText | src/main/kotlin/interactors/Users.kt:188 | `n.toString().toInt() == n` for every 32-bit n (a stored activity time reads back as itself) |
| Strings.ParseLongText | src/main/kotlin/interactors/Users.kt:439 | `n.toString().toLong() == n` for every 64-bit n |
| Strings.IntTextNonEmpty | src/main/kotlin/controllers/LoginController.kt:114-116 | the text of a number is never empty |
| Strings.Lower | src/main/kotlin/interactors/DBCollection.kt:164 | `toLowerCase` keeps the length, lower-cases each ASCII capital and keeps every other character |
| Strings.Capitalize | src/main/kotlin/controllers/AdminController.kt:863 | `capitalize` upper-cases a leading ASCII small letter and keeps the rest |
| Strings.TrimStart | src/main/kotlin/controllers/AdminController.kt:519 | the leading part removed is whitespace in Kotlin's sense (the JVM's `isWhitespace` or `isSpaceChar`) and the rest is a suffix starting with a non-whitespace character |
| Strings.TrimEnd | src/main/kotlin/controllers/AdminController.kt:519 | the trailing part removed is whitespace in Kotlin's sense (the JVM's `isWhitespace` or `isSpaceChar`) and the rest is a prefix ending with a non-whitespace character |
| Strings.Trim | src/main/kotlin/controllers/AdminController.kt:519 | `trim()` leaves no Kotlin whitespace (the JVM's `isWhitespace` or `isSpaceChar`) at either end and is empty exactly when the text is blank |
| Strings.TrimEnds | src/main/kotlin/controllers/AdminController.kt:519 | trimming both ends leaves no whitespace at either end |
| Strings.TrimBlank | src/main/kotlin/controllers/AdminController.kt:519 | `trim().count()==0` exactly for blank text |
| Strings.BlankConcat | src/main/kotlin/controllers/AdminController.kt:519 | a concatenation is blank exactly when both parts are |
| Strings.CompareStr | src/main/kotlin/interactors/DBCollection.kt:377-383 | String comparison, character by character by code point: 0 exactly for equal strings, negative exactly when the first sorts before the second |
| Strings.CompareStrAntisymmetric | src/main/kotlin/interactors/DBCollection.kt:377-383 | swapping the strings negates the comparison |
| Strings.StrLessIrreflexive | src/main/kotlin/interactors/DBCollection.kt:377-383 | no string sorts before itself |
| Strings.StrLessAsymmetric | src/main/kotlin/interactors/DBCollection.kt:377-383 | two strings never sort before each other |
| Strings.StrLessTotal | src/main/kotlin/interactors/DBCollection.kt:377-383 | of two different strings one sorts before the other |
| Strings.StrLessTransitive | src/main/kotlin/interactors/DBCollection.kt:377-383 | the string order is transitive |
| Queries.FirstId | src/main/kotlin/interactors/DBCollection.kt:435-439 | the position of the first model whose `_id` text is the id; every model before it has another id |
| Queries.IndexById | src/main/kotlin/interactors/DBCollection.kt:435-445 | getById finds position i exactly when model i is the only one with that `_id` text; it finds nothing when no model, or more than one, has it |
| Queries.ById | src/main/kotlin/interactors/DBCollection.kt:435-445 | the model returned is the one at IndexById and has the requested `_id` text |
| Queries.Where | src/main/kotlin/interactors/DBCollection.kt:455-458 | exactly the models whose field equals the value |
| Queries.WhereFirst | src/main/kotlin/interactors/DBCollection.kt:473-479 | the first match is the earliest model in collection order with the value |
| Queries.ListBy | src/main/kotlin/interactors/DBCollection.kt:454-464 | null exactly when no model has the value; otherwise a non-empty list of exactly the matching models |
| Queries.By | src/main/kotlin/interactors/DBCollection.kt:473-480 | null exactly when no model matches; otherwise the first matching model in collection order |
| Queries.ByIdFindsEach | src/main/kotlin/interactors/DBCollection.kt:435-445 | in a collection with unique ids getById finds each model at its own position |
| Queries.KeyedSameId | src/main/kotlin/interactors/DBCollection.kt:435-445 | in a collection with unique ids two models with the same `_id` text are the same model |
| Queries.KeyedById | src/main/kotlin/interactors/DBCollection.kt:435-445 | in a collection with unique ids getById succeeds exactly for the ids present |
| Queries.IntParam | src/main/kotlin/interactors/DBCollection.kt:148-149 | a missing limit/offset is 0; a present one parses as an Int or throws |
| Queries.ReadParams | src/main/kotlin/interactors/DBCollection.kt:143-155 | the parameters read succeed exactly when limit and offset parse; get_total is set exactly when present; sort is taken only from a Pair; no parameters give the defaults |
| Queries.MatchingMembers | src/main/kotlin/interactors/DBCollection.kt:157-174 | a model is in the filtered list exactly when it is loaded and some allowed non-`_id` field's text starts with the filter, ignoring the case of ASCII letters |
| Queries.SortOrder | src/main/kotlin/interactors/DBCollection.kt:299-387 | null exactly when an operand is not a model; otherwise -1, 0 or 1 |
| Queries.SortOrderAntisymmetric | src/main/kotlin/interactors/DBCollection.kt:319-384 | on well-typed models swapping the operands negates the order |
| Queries.ComparatorAntisymmetric | src/main/kotlin/interactors/DBCollection.kt:178-181 | the comparator passed to sortWith is antisymmetric on any list of well-typed models |
| Queries.InsertByPermutes | src/main/kotlin/interactors/DBCollection.kt:179-181 | inserting adds exactly one element to the multiset |
| Queries.SortByPermutes | src/main/kotlin/interactors/DBCollection.kt:179-181 | sorting keeps the same elements with the same multiplicities |
| Queries.InsertByOrdered | src/main/kotlin/interactors/DBCollection.kt:179-181 | inserting into an ordered list keeps it ordered |
| Queries.SortByOrdered | src/main/kotlin/interactors/DBCollection.kt:179-181 | under an antisymmetric comparator the sorted list is ordered |
| Queries.SortByCorrect | src/main/kotlin/interactors/DBCollection.kt:178-182 | sortWith yields an ordered permutation of the filtered list |
| Queries.Page | src/main/kotlin/interactors/DBCollection.kt:183-202 | subList throws exactly when offset or limit is positive and offset lies outside [0, end], where end comes from the 32-bit sum offset + limit: IndexOutOfBoundsException for a negative offset, IllegalArgumentException for an offset past end; with get_total the last element is the count before paging |
| Queries.PageWindow | src/main/kotlin/interactors/DBCollection.kt:184-197 | while offset + limit fits in an Int, a page is the `limit` items from `offset`, fewer at the end of the list, followed by the total when asked; past that the sum wraps around and subList throws |
| Queries.PageLimitWraps | src/main/kotlin/interactors/DBCollection.kt:185-189 | offset 1 with the largest Int limit on three items throws IllegalArgumentException, because the end index wraps around to a negative number below the offset |
| Queries.PageAll | src/main/kotlin/interactors/DBCollection.kt:199-202 | without offset and limit the whole list is returned, with the count last when asked |
| Queries.RowHidesPassword | src/main/kotlin/interactors/DBCollection.kt:246-254 | a JSON row never carries "password" |
| Queries.IntRoundTrip | src/main/kotlin/interactors/DBCollection.kt:238 | a 32-bit count reads back as itself |
| Queries.TotalRow | src/main/kotlin/interactors/DBCollection.kt:236-240 | the appended total is rendered as that number whenever it fits in 32 bits |
| DBModels.Coerce | src/main/kotlin/models/DBModel.kt:61-69 | a converted value has the field's type; a value that already has it is stored unchanged; String fields store the text; Boolean fields accept only booleans |
| DBModels.WellTypedHoldsValues | src/main/kotlin/models/DBModel.kt:60-71 | a document filled through `set` holds no null |
| DBModels.SetField | src/main/kotlin/models/DBModel.kt:60-71 | fields outside the schema are ignored; a schema field is written exactly when its conversion succeeds, with the converted value; the document stays well typed |
| DBModels.SetFieldOfStoredValue | src/main/kotlin/models/DBModel.kt:60-71 | writing back a value read from the model changes nothing |
| DBModels.WellTypedWrite | src/main/kotlin/models/DBModel.kt:60-71 | writing a value of the field's type keeps the document well typed |
| DBModels.SetConforming | src/main/kotlin/models/DBModel.kt:60-71 | `set` of a value that already has the field's type stores it as it is |
| DBModels.GetAfterSet | src/main/kotlin/models/DBModel.kt:46-71 | `get` after a successful `set` returns the converted value, and every other field reads as before |
| DBModels.AbsorbOnStep | src/main/kotlin/models/DBModel.kt:133-137 | copying one more schema field is one more `set` |
| DBModels.AbsorbOnOutside | src/main/kotlin/models/DBModel.kt:133-137 | the copy leaves fields outside the schema alone and keeps the document well typed |
| DBModels.Absorb | src/main/kotlin/models/DBModel.kt:131-137 | every schema field the source holds is converted and copied; every other field keeps its value; the result is well typed |
| DBModels.StoreSave | src/main/kotlin/models/DBModel.kt:77-85 | the upsert writes every field of the document under its `_id` (or a fresh id when it has none) and leaves every other record alone |
| DBModels.StoreRemove | src/main/kotlin/models/DBModel.kt:110-114 | the record with the model's `_id` is deleted and nothing else changes |
| DBModels.DBModel.constructor | src/main/kotlin/models/DBModel.kt:23-38 | a new model is empty, has the given schema and is well typed |
| DBModels.DBModel.Get | src/main/kotlin/models/DBModel.kt:46-52 | a non-null result is the stored value; an absent field reads as null |
| DBModels.DBModel.Set | src/main/kotlin/models/DBModel.kt:60-71 | the model becomes SetField of the old document, or stays as it was when the conversion throws; it stays well typed |
| DBModels.DBModel.CopyField | src/main/kotlin/models/DBModel.kt:134-136 | a field the source holds is set on the model; a null or unconvertible value fails and leaves the model as it was |
| DBModels.DBModel.CopyFromJSON | src/main/kotlin/models/DBModel.kt:132-137 | the loop succeeds exactly when every source value for a schema field converts, and then the model is Absorb of the old one; fields outside the schema never change |
| DBCollections.BaseRowsHaveNoLabels | src/main/kotlin/interactors/DBCollection.kt:273-286 | with the base getFieldPresentation no field's presentation differs from its text, so base rows carry no `_text` fields |
| DBCollections.RowsHidePasswords | src/main/kotlin/interactors/DBCollection.kt:232-261 | no row getListJSON emits holds a password |
| DBCollections.ItemHidesPassword | src/main/kotlin/interactors/DBCollection.kt:233-260 | the rows of one item (the total, or a model's row) hold no password |
| DBCollections.RowValuesStep | src/main/kotlin/interactors/DBCollection.kt:247-249 | visiting one more field adds its value exactly when it is non-null, allowed by `fields` and not "password" |
| DBCollections.RowLabelsStep | src/main/kotlin/interactors/DBCollection.kt:250-252 | visiting one more field adds `<field>_text` exactly when presentations are asked for and the presentation differs from the value's text |
| DBCollections.RowLabelsAdd | src/main/kotlin/interactors/DBCollection.kt:250-252 | a presented field adds its `_text` entry holding the presentation |
| DBCollections.RowLabelsSame | src/main/kotlin/interactors/DBCollection.kt:250-252 | a field that is not presented adds no `_text` entry |
| DBCollections.TextKeysStep | src/main/kotlin/interactors/DBCollection.kt:250-252 | the `_text` names grow by the field's name exactly when the field is presented |
| DBCollections.NotALabel | src/main/kotlin/interactors/DBCollection.kt:246-254 | when no schema field ends in `_text` of another, no schema field is overwritten by a presentation |
| DBCollections.RowOnStep | src/main/kotlin/interactors/DBCollection.kt:246-254 | one iteration of the row loop: nothing, the value, or the value and its presentation are added |
| DBCollections.DBCollection.constructor | src/main/kotlin/interactors/DBCollection.kt:33-46 | a new collection is empty, over the given store, with its cursor at 0 |
| DBCollections.DBCollection.Next | src/main/kotlin/interactors/DBCollection.kt:393-395 | next returns the model under the cursor and always advances it; past the end it throws |
| DBCollections.DBCollection.HasNext | src/main/kotlin/interactors/DBCollection.kt:401-407 | true exactly when the cursor is before the end; at the end the cursor is rewound to 0 |
| DBCollections.DBCollection.Traverse | src/main/kotlin/interactors/DBCollection.kt:393-407 | a for-loop over the collection visits the models from the cursor to the end, in order, and leaves the cursor rewound |
| DBCollections.DBCollection.GetByIndex | src/main/kotlin/interactors/DBCollection.kt:422-428 | the model at a valid index, null past the end, an exception for a negative index |
| DBCollections.DBCollection.AddModel | src/main/kotlin/interactors/DBCollection.kt:72-84 | a model whose `_id` is already loaded is ignored; otherwise it gets a fresh id when it has none and is appended; the ids stay unique |
| DBCollections.DBCollection.Put | src/main/kotlin/interactors/DBCollection.kt:72-84 | a change through a loaded model replaces that model only, keeping the ids unique |
| DBCollections.DBCollection.Save | src/main/kotlin/models/DBModel.kt:77-85 | the store becomes StoreSave of the old store |
| DBCollections.DBCollection.Retain | src/main/kotlin/interactors/Sessions.kt:33-54 | the loaded list becomes the models kept by the filter, still with unique ids |
| DBCollections.DBCollection.Remove | src/main/kotlin/interactors/DBCollection.kt:487-506 | the callback status is true exactly when getById finds the model; then it leaves both the list and the store, else nothing changes |
| DBCollections.DBCollection.Detach | src/main/kotlin/interactors/DBCollection.kt:512-517 | the model getById finds leaves the list; the store is untouched |
| DBCollections.DBCollection.RemovePreservesKeyed | src/main/kotlin/interactors/DBCollection.kt:498 | removing one model keeps the ids unique and the models well typed |
| DBCollections.DBCollection.GetList | src/main/kotlin/interactors/DBCollection.kt:132-203 | unreadable limit/offset throw; otherwise the result is ListOf: filter, then sort, then page, where a page whose 32-bit end offset + limit wraps around throws |
| DBCollections.DBCollection.MatchingItems | src/main/kotlin/interactors/DBCollection.kt:157-174 | the filter loop yields exactly the passing models, in collection order |
| DBCollections.DBCollection.ModelPasses | src/main/kotlin/interactors/DBCollection.kt:159-173 | the inner loop finds a match exactly when some allowed, non-null, non-`_id` schema field's text starts with the filter, ignoring the case of ASCII letters |
| DBCollections.DBCollection.GetListJSON | src/main/kotlin/interactors/DBCollection.kt:223-263 | fails exactly when getList does; otherwise one row per non-empty model row plus the total, and no row holds a password |
| DBCollections.DBCollection.ItemsRows | src/main/kotlin/interactors/DBCollection.kt:232-261 | the loop's rows are RowsOf the items and hold no password |
| DBCollections.DBCollection.ItemRow | src/main/kotlin/interactors/DBCollection.kt:233-260 | one item's rows are ItemRows of it and hold no password |
| DBCollections.DBCollection.ModelRow | src/main/kotlin/interactors/DBCollection.kt:246-254 | the field loop builds RowOf the model and never copies "password" |
| DBCollections.Filter | src/main/kotlin/interactors/DBCollection.kt:455-458 | the kept models, in order: a model is kept exactly when it is in the list and accepted |
| DBCollections.KeyedCons | src/main/kotlin/interactors/DBCollection.kt:78-83 | a model with a new `_id` in front of a list with unique ids keeps the ids unique |
| DBCollections.FilterKeyed | src/main/kotlin/interactors/DBCollection.kt:498 | dropping models keeps the ids unique |
| DBCollections.FilterFilter | src/main/kotlin/interactors/Users.kt:353-385 | filtering by two predicates in turn is filtering by both |
| DBCollections.FilterCongruent | src/main/kotlin/interactors/DBCollection.kt:455-458 | predicates that agree on every model filter alike |
| DBCollections.FilterSkipsOne | src/main/kotlin/interactors/DBCollection.kt:498 | filtering out exactly the model at i is removing it from the list |
| DBCollections.FilterKeepsAll | src/main/kotlin/interactors/DBCollection.kt:455-458 | a predicate that keeps every model leaves the list as it is |
| DBCollections.MatchingSnoc | src/main/kotlin/interactors/DBCollection.kt:158-174 | filtering one more model extends the result by that model exactly when it passes |
| DBCollections.MatchingAppendOne | src/main/kotlin/interactors/DBCollection.kt:158-174 | the same on the models themselves |
| DBCollections.AddFromJSON | src/main/kotlin/models/DBModel.kt:131-145 | ok exactly when every schema field converts; the model is then added when its `_id` is new, otherwise the list is unchanged |
| DBCollections.AddItem | src/main/kotlin/interactors/DBCollection.kt:55-65 | a document without `_id` receives one; ok exactly when its schema fields convert; a failed conversion changes nothing; when ok, a model whose `_id` is already loaded leaves the list as it was, and otherwise exactly the converted document is appended, with the fresh `_id` when it still has none |
| Sessions.UserSessionIndex | src/main/kotlin/interactors/DBCollection.kt:473-480 | the first session of the user, with no earlier one, or the end of the list when there is none |
| Sessions.ByUserAtIndex | src/main/kotlin/interactors/DBCollection.kt:473-480 | getBy("user_id", uid) finds exactly the session at UserSessionIndex |
| Sessions.Stamped | src/main/kotlin/interactors/DBCollection.kt:78-80 | stamping a document gives it an `_id` and changes no other field |
| Sessions.AddSessionAsWritten | src/main/kotlin/interactors/Sessions.kt:56-61 | the guard as written either adds the stamped session or leaves the list alone |
| Sessions.AddSession | src/main/kotlin/interactors/Sessions.kt:51-61 | the intended guard either adds the stamped session or leaves the list alone |
| Sessions.AddSessionNew | src/main/kotlin/interactors/Sessions.kt:51-61 | a session of a user without one and with a new `_id` is appended, stamped |
| Sessions.AsWrittenIgnoresUsers | src/main/kotlin/interactors/Sessions.kt:58 | users never have a `user_id` field, so the guard as written never refuses and addModel acts like the base addModel |
| Sessions.AsWrittenAddsSecondSession | src/main/kotlin/interactors/Sessions.kt:58 | with user u1's session loaded, the code as written adds a second session of u1 |
| Sessions.AddSessionKeepsOnePerUser | src/main/kotlin/interactors/Sessions.kt:51-61 | with the intended guard no user ever gets a second session |
| Sessions.AddModel | src/main/kotlin/interactors/Sessions.kt:56-61 | the collection becomes AddSession of the old one and the model is stamped exactly when it was added |
| Sessions.LinkSource | src/main/kotlin/models/Session.kt:58-65 | a `user_id` naming no loaded user is dropped from the source; every other field is kept |
| Sessions.Session.constructor | src/main/kotlin/models/Session.kt:31-38 | a new session belongs to the user and its `user_id` is the user's `_id` |
| Sessions.Session.AddFromJSON | src/main/kotlin/models/Session.kt:47-67 | without an acceptable room nothing changes; otherwise the user is re-linked, ok exactly when the linked source converts, and the session is added through addModel |
| Sessions.Session.CopyAndAdd | src/main/kotlin/models/DBModel.kt:131-145 | ok exactly when the source converts; the copied session is then added through Sessions.addModel unless its `_id` is loaded |
| Sessions.Session.Save | src/main/kotlin/models/Session.kt:91-112 | the store becomes SaveSession of the old store |
| Sessions.SaveDoc | src/main/kotlin/models/Session.kt:91-112 | the same for a session document |
| Sessions.NewSession | src/main/kotlin/models/Session.kt:31-38 | fails with "User not found" exactly when the user has no `_id`; otherwise the session belongs to the user |
| Sessions.StoreSaveRecord | src/main/kotlin/models/DBModel.kt:77-85 | the written record is filed under its own `_id` and keeps its user unless the document names one |
| Sessions.OthersHaveOtherIds | src/main/kotlin/models/Session.kt:105-107 | every other stored session has an `_id` other than the written one |
| Sessions.SaveKeepsOnePerUser | src/main/kotlin/models/Session.kt:91-112 | Session.save keeps the store keyed by `_id` and holding at most one session per user |
| Sessions.SavedKeyed | src/main/kotlin/models/DBModel.kt:77-85 | a store write keeps every record filed under its own `_id` |
| Sessions.SavedOnePerUser | src/main/kotlin/models/Session.kt:105-108 | a write that passed the same-user query keeps one session per user in the store |
| Sessions.CopiedSessionLinked | src/main/kotlin/models/Session.kt:47-66 | a session copied from a source naming a loaded user and room is linked to both |
| Sessions.AddItemAddsLinked | src/main/kotlin/interactors/Sessions.kt:68-83 | addItem appends at most one session, and an appended session has a loaded user and room |
| Sessions.AddItemKeepsOnePerUser | src/main/kotlin/interactors/Sessions.kt:68-83 | addItem never gives a user a second session |
| Sessions.AddItem | src/main/kotlin/interactors/Sessions.kt:68-83 | ok exactly when SessionAddItem succeeds, and the collection then becomes its result |
| Sessions.FilterKeepsOnePerUser | src/main/kotlin/interactors/Sessions.kt:35-46 | filtering the sessions never gives a user a second session |
| Sessions.KeepLinked | src/main/kotlin/interactors/Sessions.kt:35-46 | after loadList only the sessions with a non-null user_id, a loaded user and a loaded room remain, in order |
| Users.ActivationHttpCode | src/main/kotlin/interactors/Users.kt:574-584 | the HTTP code is 200 exactly for a successful activation |
| Users.CodeNamesDistinct | src/main/kotlin/interactors/Users.kt:531-539 | the register, login and update result codes have pairwise distinct names, so a name identifies its code |
| Users.RoleByCode | src/main/kotlin/interactors/Users.kt:653-660 | getValueByCode gives ADMIN exactly for code 2 and USER for every other code |
| Users.RoleByName | src/main/kotlin/interactors/Users.kt:644-646 | valueOf knows exactly the names "USER" and "ADMIN" |
| Users.RoleCodeRoundTrip | src/main/kotlin/interactors/Users.kt:644-660 | getValueByCode of a role's value is the role |
| Users.PresentationMeaning | src/main/kotlin/interactors/Users.kt:412-461 | active shows "Active" exactly when true, role "Admin" exactly for an admin and otherwise "User", gender "Male"/"Female" exactly for M/F |
| Users.UserSortOrder | src/main/kotlin/interactors/Users.kt:476-492 | the order is defined exactly when both items are user models |
| Users.UserSortOrderAntisymmetric | src/main/kotlin/interactors/Users.kt:476-526 | swapping two users negates the order, for every field and direction |
| Users.UserComparatorAntisymmetric | src/main/kotlin/interactors/Users.kt:476-526 | the users comparator is antisymmetric on any list of users |
| Users.RegisterRefusal | src/main/kotlin/interactors/Users.kt:80-99 | registration is refused exactly when login, email or password is missing or empty, or the login or email is already stored |
| Users.NewUser | src/main/kotlin/interactors/Users.kt:103-109 | the new user is well typed, inactive, of role USER, under the fresh id, with the given login and email and the hashed password |
| Users.NewUserWellTyped | src/main/kotlin/interactors/Users.kt:103-109 | the fields written at registration conform to the user schema |
| Users.UniqueWithNew | src/main/kotlin/interactors/Users.kt:96-99 | filing a user whose field value no stored user has keeps that field unique |
| Users.RegisterKeepsUnique | src/main/kotlin/interactors/Users.kt:96-112 | a registration that passes the checks stores the new user and keeps logins and emails unique |
| Users.Register | src/main/kotlin/interactors/Users.kt:78-133 | the users after the call are RegisterState; a refusal returns its code and changes nothing; otherwise the new user is returned, and either added to list and store with RESULT_OK or, when the email fails, removed again with RESULT_ERROR_ACTIVATION_EMAIL |
| Users.CreateUser | src/main/kotlin/interactors/Users.kt:103-129 | RESULT_OK and the user kept exactly when the email is sent; otherwise list and store are as before |
| Users.AddNewUser | src/main/kotlin/interactors/Users.kt:103-116 | the new user is saved under the fresh id and appended to the list |
| Users.Unregister | src/main/kotlin/interactors/Users.kt:124 | removing the just-added user restores list and store |
| Users.NewUserModel | src/main/kotlin/interactors/Users.kt:103-109 | the model built field by field holds NewUser |
| Users.UserFieldsConform | src/main/kotlin/interactors/Users.kt:33-45 | the schema types of `_id`, login, email, password, active and role |
| Users.ActivationCheck | src/main/kotlin/interactors/Users.kt:140-155 | RESULT_OK exactly for a non-empty id of a loaded user who is not active, already-activated exactly for an active one, otherwise no user |
| Users.Activated | src/main/kotlin/interactors/Users.kt:156 | the user becomes active and nothing else changes |
| Users.ActivatedWellTyped | src/main/kotlin/interactors/Users.kt:156-157 | the activated user is well typed and keeps its `_id` |
| Users.Activate | src/main/kotlin/interactors/Users.kt:140-163 | the code is ActivationCheck; on success that user is activated in the list and saved, otherwise nothing changes |
| Users.ActivateOnce | src/main/kotlin/interactors/Users.kt:150-156 | activating a user twice reports already activated the second time |
| Users.RegisteredUserActivates | src/main/kotlin/interactors/Users.kt:103-156 | a user just registered can be activated |
| Users.SessionLoginAsWritten | src/main/kotlin/interactors/Users.kt:181-193 | the session test as written passes only for a loaded session, and otherwise reports a session timeout |
| Users.SessionLogin | src/main/kotlin/interactors/Users.kt:181-193 | the intended session test passes only for a loaded session of that very user, and otherwise reports a session timeout |
| Users.LoginDecision | src/main/kotlin/interactors/Users.kt:194-203 | login can throw only when the login names a user and the session test threw, or when the candidate user's stored password is not a BCrypt hash, which BCrypt.checkpw rejects; the second throw happens whenever both texts are given and the session test passed |
| Users.LoginAuthenticates | src/main/kotlin/interactors/Users.kt:179-204 | a granted login has a loaded active user, either with that login and a matching password or, by session, with that `_id` and one of its own sessions |
| Users.LoginByPassword | src/main/kotlin/interactors/Users.kt:193-204 | for a login that is no user's `_id` but some user's login, with a BCrypt hash stored: a wrong password is INCORRECT_PASSWORD, a right password of an inactive user NOT_ACTIVATED, and a right password of an active user is let in by password |
| Users.LoginUnknownUser | src/main/kotlin/interactors/Users.kt:193-197 | a login that is neither a loaded user's `_id` nor a loaded user's login is INCORRECT_LOGIN |
| Users.LoginBySession | src/main/kotlin/interactors/Users.kt:179-204 | for a login that is a loaded user's `_id`: a passing session test lets an active user in by session whatever the password check says, and refuses an inactive one as NOT_ACTIVATED; a failing session test is SESSION_TIMEOUT |
| Users.LoginGrantedOutcome | src/main/kotlin/interactors/Users.kt:205-227 | once the checks let a user in, the result is RESULT_OK exactly when the double-login test does not refuse and ALREADY_LOGIN exactly when it does; a login by session or a user without a session is always RESULT_OK |
| Users.LoginWithValidCredentials | src/main/kotlin/interactors/Users.kt:173-227 | an active user named by its login, with a password BCrypt accepts and no session yet, logs in with RESULT_OK |
| Users.LoginWithForeignSession | src/main/kotlin/interactors/Users.kt:179-193 | with the code as written user u1 logs in with session s2 of user u2; the intended check refuses |
| Users.DoubleLogin | src/main/kotlin/interactors/Users.kt:205-214 | already-logged-in is reported only for a password login of a user who has a session |
| Users.LoggedIn | src/main/kotlin/interactors/Users.kt:218-222 | login and activity times are now; `_id` and user stay; the room stays or becomes a loaded room; the session stays well typed |
| Users.LoginSessions | src/main/kotlin/interactors/Users.kt:205-223 | the user's session (existing or appended) is refreshed to now and every other session is unchanged |
| Users.LoginKeepsOnePerUser | src/main/kotlin/interactors/Users.kt:205-223 | login never gives a user a second session |
| Users.Login | src/main/kotlin/interactors/Users.kt:173-230 | the result is LoginOutcome, whose decision chain LoginByPassword, LoginUnknownUser, LoginBySession and LoginGrantedOutcome state case by case; the sessions after the call are LoginState: unchanged after a refusal, an exception or a double login, and otherwise the user's session opened in the list and saved in the store |
| Users.LoginStateHolds | src/main/kotlin/interactors/Users.kt:173-230 | the session effects login states case by case add up to LoginState |
| Users.LoginOutcome | src/main/kotlin/interactors/Users.kt:173-230 | success returns a loaded user and failure none; an empty login or password gives the matching error |
| Users.CheckLogin | src/main/kotlin/interactors/Users.kt:179-203 | the checks of login compute LoginCheck, including the exception when the stored password is not a BCrypt hash |
| Users.LoginWithoutPasswordThrows | src/main/kotlin/interactors/Users.kt:200 | a user whose stored password is the text "null" (what an admin insert without a password leaves) makes login throw, both by password and by user id and session id |
| Users.SessionTest | src/main/kotlin/interactors/Users.kt:181-193 | the session test computes SessionLogin |
| Users.OpenedSessionOk | src/main/kotlin/interactors/Users.kt:205-226 | when no double login is reported, refreshing and saving the user's session is a successful login |
| Users.OpenSession | src/main/kotlin/interactors/Users.kt:205-226 | already-logged-in changes nothing; otherwise the sessions become LoginSessions, the store SaveSession of the user's session, and RESULT_OK returns the user |
| Users.StartSession | src/main/kotlin/interactors/Users.kt:215-225 | the sessions become LoginSessions and the user's session is saved through Session.save |
| Users.RefreshSession | src/main/kotlin/interactors/Users.kt:218-222 | the user's existing session is replaced by its refreshed copy |
| Users.NewLoginSession | src/main/kotlin/interactors/Users.kt:216-223 | a user without a session gets a new, stamped, refreshed session at the end of the list |
| Users.LoginSessionModel | src/main/kotlin/interactors/Users.kt:216-222 | the new session model holds LoggedIn of a session of the user |
| Users.GoingWrites | src/main/kotlin/interactors/Users.kt:256-258 | a passing step that writes a conforming value to its own field writes only that field |
| Users.StoppedWrites | src/main/kotlin/interactors/Users.kt:249-255 | a failing step names its field and writes nothing |
| Users.PasswordStep | src/main/kotlin/interactors/Users.kt:248-260 | an empty password or a confirmation that differs stops the update; otherwise the hashed password is written |
| Users.NameStep | src/main/kotlin/interactors/Users.kt:261-276 | an empty name stops the update; otherwise the trimmed name is written |
| Users.GenderStep | src/main/kotlin/interactors/Users.kt:277-287 | a gender other than M or F stops the update |
| Users.BirthDateStep | src/main/kotlin/interactors/Users.kt:289-308 | only a parsed, non-zero birth date not after now is written |
| Users.RoomStep | src/main/kotlin/interactors/Users.kt:309-323 | only a loaded room is written as default_room |
| Users.RoleStep | src/main/kotlin/interactors/Users.kt:324-338 | only a role name valueOf knows is written, as that role's value |
| Users.UpdateFrame | src/main/kotlin/interactors/Users.kt:247-338 | only updatable fields change, the user stays well typed, and a stop names a given field with an error code |
| Users.UpdateKeeps | src/main/kotlin/interactors/Users.kt:247-338 | a field that cannot be updated keeps its value |
| Users.UpdateWellTyped | src/main/kotlin/interactors/Users.kt:247-338 | the updated user stays well typed |
| Users.UpdateStops | src/main/kotlin/interactors/Users.kt:247-338 | a stop names a given updatable field and one of the three error codes |
| Users.UpdateStoresPassword | src/main/kotlin/interactors/Users.kt:248-260 | a completed update stores the hashed password when one was given, and then the confirmation matched |
| Users.UpdateStoresProfile | src/main/kotlin/interactors/Users.kt:261-308 | a completed update stores trimmed names, an M/F gender and a valid birth date for the given fields |
| Users.UpdateStoresNames | src/main/kotlin/interactors/Users.kt:261-276 | a completed update stores the trimmed names given |
| Users.UpdateStoresGender | src/main/kotlin/interactors/Users.kt:277-287 | a completed update stores M or F when a gender was given |
| Users.UpdateStoresBirthDate | src/main/kotlin/interactors/Users.kt:289-308 | a completed update stores a non-zero birth date not after now |
| Users.UpdateStoresRoomAndRole | src/main/kotlin/interactors/Users.kt:309-338 | a completed update stores a loaded room and a role of 1 or 2 when given |
| Users.UpdateStoresRoom | src/main/kotlin/interactors/Users.kt:309-323 | a completed update stores a loaded room when one was given |
| Users.UpdateStoresRole | src/main/kotlin/interactors/Users.kt:324-338 | a completed update stores a role of 1 or 2 when one was given |
| Users.UpdateLeavesUngiven | src/main/kotlin/interactors/Users.kt:248-338 | an updatable field that is not given keeps its value |
| Users.UpdateResult | src/main/kotlin/interactors/Users.kt:239-345 | no user_id gives user-not-specified, an unknown one user-not-found, and RESULT_OK only for a loaded user with an empty message |
| Users.UpdateUser | src/main/kotlin/interactors/Users.kt:239-345 | the result is UpdateResult and the users after the call are UpdateState; without a known user nothing changes; otherwise the loaded user takes the steps' writes even when a step fails, and it is saved only on success |
| Users.UpdateFound | src/main/kotlin/interactors/Users.kt:247-342 | the user takes the steps' writes; success saves it with RESULT_OK, a stop returns its code and field and saves nothing |
| Users.UpdateReplaces | src/main/kotlin/interactors/Users.kt:247-340 | the updated user is well typed and keeps its `_id`, so it replaces the loaded model in place |
| Users.DropFound | src/main/kotlin/interactors/Users.kt:374 | removing a loaded session drops exactly that session from the list |
| Users.DropMissing | src/main/kotlin/interactors/Users.kt:374 | removing a session no longer loaded changes nothing |
| Users.DropSession | src/main/kotlin/interactors/Users.kt:374 | one session removal takes it from list and store |
| Users.RemoveSessionsOf | src/main/kotlin/interactors/Users.kt:364-375 | reports whether the user had sessions; every session of the user leaves list and store and nothing else changes |
| Users.DropAll | src/main/kotlin/interactors/Users.kt:368-375 | the session loop removes exactly the listed sessions from list and store |
| Users.NoneOwned | src/main/kotlin/interactors/Users.kt:364-367 | a user without sessions leaves the sessions alone |
| Users.AllOwned | src/main/kotlin/interactors/Users.kt:364-375 | removing getListBy's sessions is removing every session of the user |
| Users.RemovedCountAsWritten | src/main/kotlin/interactors/Users.kt:353-379 | the count as written is at most the number of users removed |
| Users.RemovedUserWithoutSessions | src/main/kotlin/interactors/Users.kt:364-367 | removing user u1, who has no sessions, counts 0 as written though one user is removed |
| Users.RemoveUsers | src/main/kotlin/interactors/Users.kt:353-379 | returns the number of given ids naming loaded users; exactly those users and their sessions leave list and store |
| Users.RemoveNoneYet | src/main/kotlin/interactors/Users.kt:354 | before the loop nothing is removed |
| Users.RemoveOne | src/main/kotlin/interactors/Users.kt:355-376 | one iteration removes the named user, if loaded, with all its sessions, and counts it |
| Users.UserMissing | src/main/kotlin/interactors/Users.kt:356-358 | an id naming no loaded user is skipped |
| Users.MissingKeepsUsers | src/main/kotlin/interactors/Users.kt:356-358 | a skipped id leaves the users as they are |
| Users.MissingKeepsRemovable | src/main/kotlin/interactors/Users.kt:356-358 | a skipped id removes no one |
| Users.UserFound | src/main/kotlin/interactors/Users.kt:359 | a loaded user named once more is removed and counted once |
| Users.OneMoreName | src/main/kotlin/interactors/Users.kt:355-359 | removing the users named so far and then one more is removing by the longer list |
| Users.UserFoundRemovable | src/main/kotlin/interactors/Users.kt:356-359 | a loaded user not yet removed adds exactly its id to the removed ones |
| Users.SessionsOfOneMore | src/main/kotlin/interactors/Users.kt:364-375 | removing the sessions of one more user is removing the sessions of the larger set |
| AdminValidation.TheKey | src/main/kotlin/controllers/AdminController.kt:657-663 | a one-field object has exactly one key, the one the iterator returns |
| AdminValidation.FieldWrite | src/main/kotlin/controllers/AdminController.kt:655-718 | an item writes at most one schema field other than `_id`, and the value conforms to the field's type |
| AdminValidation.Stored | src/main/kotlin/controllers/AdminController.kt:678-715 | the trimmed text converts to a value of the field's type, or the item is skipped |
| AdminValidation.CreateModel | src/main/kotlin/controllers/AdminController.kt:650-721 | the loop builds Written: the starting document with each valid item's field written in turn |
| AdminValidation.ApplyItem | src/main/kotlin/controllers/AdminController.kt:655-718 | one iteration writes the item's field when it is valid and otherwise leaves the model |
| AdminValidation.StoredValue | src/main/kotlin/controllers/AdminController.kt:678-715 | the conversion by field type computes Stored |
| AdminValidation.WrittenKeepsOthers | src/main/kotlin/controllers/AdminController.kt:670-674 | fields outside the schema and `_id` are never written, and only schema fields are added |
| AdminValidation.WrittenWellTyped | src/main/kotlin/controllers/AdminController.kt:650-721 | createModel keeps a well-typed model well typed |
| AdminValidation.RequiredVerdict | src/main/kotlin/controllers/AdminController.kt:754-814 | the required checks never throw, and pass exactly when login, email and default_room are set, login and email are not taken by another user, the email is valid and the room is loaded |
| AdminValidation.Checks | src/main/kotlin/controllers/AdminController.kt:754-861 | validation passes exactly when the required, birth date, gender, role and password checks all pass |
| AdminValidation.Defaulted | src/main/kotlin/controllers/AdminController.kt:846-848 | a default is written only into an unset field, nothing else changes, and the user stays well typed |
| AdminValidation.Rewritten | src/main/kotlin/controllers/AdminController.kt:849-867 | a set field is rewritten, an unset one stays unset, nothing else changes, and the user stays well typed |
| AdminValidation.ValidationOf | src/main/kotlin/controllers/AdminController.kt:729-876 | an unknown id gives object-not-found on "id", and every refusal has status "error" |
| AdminValidation.ValidateFields | src/main/kotlin/controllers/AdminController.kt:729-876 | validateFields computes ValidationOf |
| AdminValidation.Judge | src/main/kotlin/controllers/AdminController.kt:753-876 | the checks and completion after createModel compute Judged |
| AdminValidation.RoundTripWellTyped | src/main/kotlin/controllers/AdminController.kt:874 | re-parsing the serialised user gives back a well-typed user unchanged |
| AdminValidation.CompletedWellTyped | src/main/kotlin/controllers/AdminController.kt:846-870 | the completed user stays well typed |
| AdminValidation.CompletedRole | src/main/kotlin/controllers/AdminController.kt:836-848 | a set role is kept and an unset one becomes 1 |
| AdminValidation.CompletedActive | src/main/kotlin/controllers/AdminController.kt:868-870 | the completed user always has `active` |
| AdminValidation.CompletedKeeps | src/main/kotlin/controllers/AdminController.kt:846-870 | completion changes only role, password, first and last name and active |
| AdminValidation.ChecksNeverThrow | src/main/kotlin/controllers/AdminController.kt:815-845 | on a well-typed user the numeric conversions of the checks never throw |
| AdminValidation.NumbersNeverThrow | src/main/kotlin/controllers/AdminController.kt:815-845 | on a well-typed user the birth date and role checks never throw |
| AdminValidation.BuiltWellTyped | src/main/kotlin/controllers/AdminController.kt:737-753 | createModel on a new or loaded well-typed user gives a well-typed user |
| AdminValidation.NeverThrows | src/main/kotlin/controllers/AdminController.kt:729-876 | with well-typed users loaded, validateFields never throws |
| AdminValidation.PassedChecks | src/main/kotlin/controllers/AdminController.kt:754-845 | a user that passes has login, a valid email, a loaded room, a role of 1 or 2 if set, and a gender of M or F if set; its login and email are not held by another user than the one being updated |
| AdminValidation.PassedGender | src/main/kotlin/controllers/AdminController.kt:826-835 | a user that passes the gender check has no gender, M or F |
| AdminValidation.PassedRole | src/main/kotlin/controllers/AdminController.kt:836-845 | a user that passes the role check has no role, 1 or 2 |
| AdminValidation.JudgedAccepted | src/main/kotlin/controllers/AdminController.kt:753-876 | an accepted user is well typed with login, a valid email, a loaded room, role 1 or 2, active set, a valid gender, the same `_id`, login and email; a login or email any loaded user holds is accepted only as the updated user's own (trimmed) one |
| AdminValidation.AcceptedUser | src/main/kotlin/controllers/AdminController.kt:729-876 | the same for validateFields, and a new user has no `_id` while an edited one keeps the loaded user's; a login or email any loaded user holds is accepted only in an update, and only when it equals the updated user's own trimmed one |
| AdminValidation.JudgedNotTaken | src/main/kotlin/controllers/AdminController.kt:779-805 | a user that passes the checks has a login and an email no loaded user holds, unless they equal the updated user's own |
| AdminValidation.AcceptedNotTaken | src/main/kotlin/controllers/AdminController.kt:735-805 | validateFields accepts a login or email some loaded user holds only in an update, and only when it is the updated user's trimmed own |
| AdminValidation.FilledUser | src/main/kotlin/controllers/AdminController.kt:846-875 | completing and re-parsing a user that passed keeps every property the checks established |
| AdminValidation.PassedUser | src/main/kotlin/controllers/AdminController.kt:815-875 | a user that passes the checks becomes, once completed and re-parsed, a user with those properties |
| AdminValidation.WrittenKeepsPassword | src/main/kotlin/controllers/AdminController.kt:650-721 | items none of which sets the password leave the password of the document createModel starts from |
| AdminValidation.UpdateRehashesAsWritten | src/main/kotlin/controllers/AdminController.kt:849-859 | as written, an update that gives no password rewrites the stored hash h as the hash of h, so the stored password changes whenever that hash differs from h; completing with the items' password flag keeps h |
| AdminValidation.JudgedKeepsPassword | src/main/kotlin/controllers/AdminController.kt:849-875 | completion and re-parsing without a given password keep the checked document's password |
| AdminValidation.UpdateKeepsPassword | src/main/kotlin/controllers/AdminController.kt:729-875 | an accepted update whose items give no password stores exactly the loaded user's password |
| AdminListQueries.FieldsCheck | src/main/kotlin/controllers/AdminController.kt:484-518 | absent exactly without "fields"; incorrect value exactly when it is neither a parsable array text nor an array; otherwise a non-empty list or field-is-empty |
| AdminListQueries.FilterCheck | src/main/kotlin/controllers/AdminController.kt:519-529 | a blank filter fails with field-is-empty; otherwise the trimmed, non-empty text is passed on |
| AdminListQueries.OffsetCheck | src/main/kotlin/controllers/AdminController.kt:530-556 | a blank offset is field-is-empty, an unparsable one incorrect-value, otherwise its integer |
| AdminListQueries.LimitCheck | src/main/kotlin/controllers/AdminController.kt:557-589 | an unparsable limit (a blank one included) fails with incorrect-value, otherwise its integer is passed on |
| AdminListQueries.LimitCarry | src/main/kotlin/controllers/AdminController.kt:577-582 | a limit that parses but is not positive leaves an incorrect-value code behind without failing |
| AdminListQueries.SortCheckOf | src/main/kotlin/controllers/AdminController.kt:590-632 | an empty sort is field-is-empty; an object sort is used as given, and passes exactly when it is non-empty with only ASC/DESC directions; other text that parses to an empty object fails without a code of its own; a pass has only ASC/DESC directions |
| AdminListQueries.SortFailure | src/main/kotlin/controllers/AdminController.kt:633-637 | a sort failure reports field "sort" with the code left in the result, if any |
| AdminListQueries.ListQueryError | src/main/kotlin/controllers/AdminController.kt:473-639 | an error, with status "error" and a field, exactly when one of the five checks fails; a fields failure is reported first |
| AdminListQueries.OptionsError | src/main/kotlin/controllers/AdminController.kt:484-589 | the checks before sort fail exactly when fields, filter, offset or limit fails |
| AdminListQueries.Put | src/main/kotlin/controllers/AdminController.kt:517-588 | a query write sets one key to a non-null value and leaves the others |
| AdminListQueries.Flags | src/main/kotlin/controllers/AdminController.kt:478-483 | get_total and get_presentations are set exactly when the request has them |
| AdminListQueries.BaseQuery | src/main/kotlin/controllers/AdminController.kt:474-589 | the query holds only the known option keys |
| AdminListQueries.Prepared | src/main/kotlin/controllers/AdminController.kt:628-638 | a prepared query carries no "status", so it is never taken for an error |
| AdminListQueries.BaseNumbers | src/main/kotlin/controllers/AdminController.kt:555-588 | limit and offset hold the accepted integers |
| AdminListQueries.BaseTexts | src/main/kotlin/controllers/AdminController.kt:517-528 | filter and fields hold the accepted values |
| AdminListQueries.BaseFlags | src/main/kotlin/controllers/AdminController.kt:478-483 | the flags hold what the request asked for |
| AdminListQueries.PreparedSort | src/main/kotlin/controllers/AdminController.kt:628-630 | the sort pair is added and nothing else changes |
| AdminListQueries.QueryReadBack | src/main/kotlin/interactors/DBCollection.kt:143-155 | getList reads back from the prepared query exactly the options prepareListQuery accepted |
| AdminListQueries.ReadParamsFrom | src/main/kotlin/interactors/DBCollection.kt:143-155 | a query whose entries read as the given options is read as those options |
| AdminListQueries.NumbersReadBack | src/main/kotlin/interactors/DBCollection.kt:143-150 | limit and offset read back as accepted |
| AdminListQueries.TextsReadBack | src/main/kotlin/interactors/DBCollection.kt:143-155 | filter, fields and sort read back as accepted |
| AdminListQueries.FlagsReadBack | src/main/kotlin/interactors/DBCollection.kt:151-155 | the flags read back as accepted |
| AdminListQueries.IntReadBack | src/main/kotlin/interactors/DBCollection.kt:143-150 | an accepted 32-bit integer reads back as itself and an absent one as 0 |
| AdminListQueries.PrepareListQuery | src/main/kotlin/controllers/AdminController.kt:473-639 | the error when a check fails; otherwise the prepared query, with one of the request's sort entries when sort passes |
| AdminListQueries.OptionSteps | src/main/kotlin/controllers/AdminController.kt:478-589 | the steps before sort fail as OptionsError, or build BaseQuery and carry the limit code |
| AdminListQueries.FlagsStep | src/main/kotlin/controllers/AdminController.kt:478-483 | the flag step computes Flags |
| AdminListQueries.FieldsStep | src/main/kotlin/controllers/AdminController.kt:484-518 | fails with FieldsCheck's code on "fields", or writes the fields |
| AdminListQueries.FilterStep | src/main/kotlin/controllers/AdminController.kt:519-529 | fails with field-is-empty on "filter", or writes the trimmed filter |
| AdminListQueries.OffsetStep | src/main/kotlin/controllers/AdminController.kt:530-556 | fails with OffsetCheck's code on "offset", or writes the offset |
| AdminListQueries.LimitStep | src/main/kotlin/controllers/AdminController.kt:557-589 | fails with incorrect-value on "limit", or writes the limit and carries LimitCarry |
| AdminListQueries.SortStep | src/main/kotlin/controllers/AdminController.kt:590-638 | a failing sort reports its code, or the carried one; no sort leaves the query; a passing sort, an object taken as given or text parsed, adds one of its entries |
| AdminListQueries.SortEntries | src/main/kotlin/controllers/AdminController.kt:616-626 | bad exactly when some direction is neither ASC nor DESC; otherwise the pair is an entry of the object |
| AdminListQueries.LimitCodeReachesSort | src/main/kotlin/controllers/AdminController.kt:577-637 | a non-positive limit followed by an empty sort object reports incorrect-value on "sort" |
| AdminListQueries.EmptySortHasNoCode | src/main/kotlin/controllers/AdminController.kt:610-637 | with a positive limit an empty sort object gives an error without a status_code |
| AdminResults.AdminCodeNamesDiffer | src/main/kotlin/controllers/AdminController.kt:900-906 | distinct result codes have distinct names |
| AdminResults.AdminMessage | src/main/kotlin/controllers/AdminController.kt:907-916 | the message is empty exactly for RESULT_OK |
| AdminResults.AdminError | src/main/kotlin/controllers/AdminController.kt:744-746 | an error response holds exactly status "error", the code and the field |
| AdminResults.AdminDone | src/main/kotlin/controllers/AdminController.kt:59-60 | a success response holds status "ok" and RESULT_OK |
| AdminControllers.Action | src/main/kotlin/controllers/AdminController.kt:885-892 | exactly the seven action names resolve, each to the action of that name |
| AdminControllers.Auth | src/main/kotlin/controllers/AdminController.kt:426-453 | the error is always AUTHENTICATION_ERROR; none exactly when the user check passes and the user's role parses to 2 |
| AdminControllers.AuthAdmitsAdmins | src/main/kotlin/controllers/AdminController.kt:426-453 | an admitted request names a loaded admin whose session is loaded and belongs to them |
| AdminControllers.UserSchemaNoTextClash | src/main/kotlin/interactors/Users.kt:33-45 | no user field is named like another field's `_text` presentation |
| AdminControllers.RoomSchemaNoTextClash | src/main/kotlin/controllers/AdminController.kt:394 | no room field is named like another field's `_text` presentation |
| AdminControllers.ListExec | src/main/kotlin/controllers/AdminController.kt:43-64 | a query error is returned as it is; otherwise the list is getListJSON of the prepared query, read back as prepared, and holds no password |
| AdminControllers.ChosenSort | src/main/kotlin/controllers/AdminController.kt:616-630 | the query prepareListQuery returned is Prepared with one of the request's sort entries, or none |
| AdminControllers.ListRows | src/main/kotlin/controllers/AdminController.kt:54-63 | the answer holds getListJSON's rows with status "ok", and no row holds a password |
| AdminControllers.GetUsersList | src/main/kotlin/controllers/AdminController.kt:43-64 | admin_get_users_list: ListExec over the users with their presentations and sort order |
| AdminControllers.GetRoomsList | src/main/kotlin/controllers/AdminController.kt:383-404 | admin_get_rooms_list: ListExec over the rooms with the base presentations and order |
| AdminControllers.Shown | src/main/kotlin/controllers/AdminController.kt:117-120 | the user shown is an object without a password |
| AdminControllers.GetUser | src/main/kotlin/controllers/AdminController.kt:82-125 | "ok" exactly when the query is one schema field whose value a user has; the user shown is the first such user, without password; each failure gives its error and field |
| AdminControllers.Submitted | src/main/kotlin/controllers/AdminController.kt:146-154 | the fields are taken exactly when parseJSONArrayFromRequest answers "ok", and they are its non-empty result |
| AdminControllers.LoadedUsersWellTyped | src/main/kotlin/controllers/AdminController.kt:740 | every loaded user is well typed |
| AdminControllers.FreshIdUnused | src/main/kotlin/interactors/DBCollection.kt:76-80 | a fresh ObjectId is the `_id` of no loaded user |
| AdminControllers.AddOutcome | src/main/kotlin/controllers/AdminController.kt:141-178 | a parse failure or refusal is answered as it is; an accepted user is stored, well typed, without `_id`, with login, email, a loaded room and role 1 or 2 |
| AdminControllers.AddDecision | src/main/kotlin/controllers/AdminController.kt:146-162 | parsing and validation compute AddOutcome |
| AdminControllers.AddUser | src/main/kotlin/controllers/AdminController.kt:141-178 | with one id: an answer changes nothing; an accepted user is appended and saved under the same fresh id, and returned without password |
| AdminControllers.AddKeepsUnique | src/main/kotlin/controllers/AdminController.kt:141-178 | an added user keeps logins and emails unique over the loaded users |
| AdminControllers.InsertUser | src/main/kotlin/controllers/AdminController.kt:165-166 | the user is saved and added under one fresh id |
| AdminControllers.AddUserAsWritten | src/main/kotlin/controllers/AdminController.kt:141-178 | as written: the store receives the user under one ObjectId and the list under another, so the listed id is not in the store |
| AdminControllers.InsertUserAsWritten | src/main/kotlin/controllers/AdminController.kt:165-166 | save files the user under its own id, and addModel then gives the listed copy another |
| AdminControllers.StoredUserLostAsWritten | src/main/kotlin/controllers/AdminController.kt:165-166 | with the two ObjectIds "a" and "b", the store holds only "a" while the user held in memory is "b" |
| AdminControllers.UpdateUser | src/main/kotlin/controllers/AdminController.kt:194-241 | a parse failure or a missing id is answered and changes nothing; a refusal changes nothing; an accepted user replaces the loaded one in list and store and is returned |
| AdminControllers.UpdateKeepsUnique | src/main/kotlin/controllers/AdminController.kt:194-241 | an accepted update keeps logins and emails unique over the loaded users, when the updated user holds its own without surrounding whitespace |
| AdminControllers.ReplaceUser | src/main/kotlin/controllers/AdminController.kt:228-229 | the loaded user with that id is replaced in place and saved |
| AdminControllers.Kept | src/main/kotlin/controllers/AdminController.kt:277-288 | the kept ids are exactly the string items other than the requester's own id |
| AdminControllers.CollectIds | src/main/kotlin/controllers/AdminController.kt:277-288 | the loop over the list computes Kept |
| AdminControllers.Listing | src/main/kotlin/controllers/AdminController.kt:268-276 | the list is taken exactly when parseJSONArrayFromRequest answers "ok", and it is its result |
| AdminControllers.RemoveUsers | src/main/kotlin/controllers/AdminController.kt:255-311 | no list, a bad list or no id left after dropping the requester's: an error and nothing changes; otherwise removeUsers runs, the requester is never removed, and "count" is the number removed |
| AdminControllers.SendActivationEmail | src/main/kotlin/controllers/AdminController.kt:327-360 | "ok" exactly for a non-empty string id of a loaded user whose email was sent; otherwise field-is-empty, not-found or the activation-email error |
| LoginControllers.Action | src/main/kotlin/controllers/LoginController.kt:267-274 | exactly register_user, login_user and logout_user resolve, each to the action of that name |
| LoginControllers.RegisterOutcome | src/main/kotlin/interactors/Users.kt:78-133 | RESULT_OK exactly when nothing refuses the registration and the activation e-mail went out, RESULT_ERROR_ACTIVATION_EMAIL when it did not, otherwise the refusal |
| LoginControllers.RegisterReply | src/main/kotlin/controllers/LoginController.kt:55-71 | keys status, status_code and message; status "ok" exactly for RESULT_OK, else "error"; the code's name and message |
| LoginControllers.RegisterUserExec | src/main/kotlin/controllers/LoginController.kt:45-75 | the answer is the reply to the code Users.register reports against the users stored before; the users after the call are RegisterState: the new user appended and saved only when nothing refuses it and the e-mail went out |
| LoginControllers.RegisterAgainRefused | src/main/kotlin/controllers/LoginController.kt:45-75 | once a registration is stored, the same request is answered RESULT_ERROR_LOGIN_EXISTS |
| LoginControllers.LoginGuard | src/main/kotlin/controllers/LoginController.kt:114-118 | no objection exactly when login and password are both given and not empty; a missing or empty login is INCORRECT_LOGIN before the password is looked at |
| LoginControllers.RoomList | src/main/kotlin/controllers/LoginController.kt:165-172 | one {_id, name} entry per room visited, in order |
| LoginControllers.Account | src/main/kotlin/controllers/LoginController.kt:133-143 | session_id present exactly when a loaded session has the user's _id as user_id, and then that session's _id; login, email and user_id are the user's |
| LoginControllers.Optional | src/main/kotlin/controllers/LoginController.kt:144-163 | a user field is in the answer exactly when the user has it non-null, as text or as it is |
| LoginControllers.DefaultRoom | src/main/kotlin/controllers/LoginController.kt:156-161 | default_room is in the answer exactly when the user has one and it names a loaded room, with the user's value |
| LoginControllers.Names | src/main/kotlin/controllers/LoginController.kt:144-152 | first_name, last_name and gender are copied as text exactly when the user has them |
| LoginControllers.Given | src/main/kotlin/controllers/LoginController.kt:153-164 | birthDate and role are copied as they are exactly when the user has them |
| LoginControllers.RoomPart | src/main/kotlin/controllers/LoginController.kt:156-173 | the default room as DefaultRoom states, and rooms is the list of the rooms visited |
| LoginControllers.Profile | src/main/kotlin/controllers/LoginController.kt:144-173 | all the optional user fields, the default room and the rooms list, with the meanings stated for each part |
| LoginControllers.UserDetails | src/main/kotlin/controllers/LoginController.kt:133-173 | the union of the account and profile parts, each key keeping its part's value, none clashing with the status keys |
| LoginControllers.Status | src/main/kotlin/controllers/LoginController.kt:192-194 | keys status, status_code and message; status "ok" exactly for RESULT_OK, else "error" |
| LoginControllers.LoginReply | src/main/kotlin/controllers/LoginController.kt:108-199 | the status part always; for a failure nothing else; for success also exactly the user's details |
| LoginControllers.LoginUserExec | src/main/kotlin/controllers/LoginController.kt:108-199 | a refused login or password is answered without touching the sessions or the rooms cursor; otherwise the answer is the reply to the outcome of Users.login, an exception of Users.login stays an exception, the sessions are LoginState, and the rooms cursor ends at 0 only after a successful login |
| LoginControllers.LoginAndAnswer | src/main/kotlin/controllers/LoginController.kt:121-190 | the answer is the reply to the outcome of Users.login, the rooms listed by iterating the rooms collection from its cursor; the sessions are LoginState and the rooms cursor is reset only after a successful login |
| LoginControllers.AnswerLogin | src/main/kotlin/controllers/LoginController.kt:125-190 | the answer is LoginReply over the rooms a `for` loop visits from the cursor; only a successful login with a user runs that loop, which leaves the cursor at 0 |
| LoginControllers.ListRooms | src/main/kotlin/controllers/LoginController.kt:165-173 | the rooms a loop over the rooms collection visits from its cursor |
| LoginControllers.Token | src/main/kotlin/controllers/LoginController.kt:93-94 | the user_id and session_id of an answer |
| LoginControllers.ReplyToken | src/main/kotlin/controllers/LoginController.kt:133-143 | the token of a successful login answer is the user's _id and the _id of the user's first loaded session |
| LoginControllers.OwnTokenAuthenticates | src/main/kotlin/controllers/UserController.kt:146-173 | a user's _id together with the _id of one of that user's sessions passes UserController.auth |
| LoginControllers.LoginTokenAuthenticates | src/main/kotlin/controllers/LoginController.kt:93-94 | the token in a successful login answer passes UserController.auth against the sessions the login leaves |
| LoginControllers.Without | src/main/kotlin/interactors/DBCollection.kt:435-445 | one model fewer when getById finds the session, the same models otherwise, and no model that was not there |
| LoginControllers.LogoutUserExec | src/main/kotlin/controllers/LoginController.kt:215-225 | removes the session named by session_id from the collection and the store, and always answers status "ok" with RESULT_OK |
| LoginControllers.LogoutEndsSession | src/main/kotlin/controllers/LoginController.kt:215-230 | after logout the same request fails UserController.auth |
| UserControllers.Action | src/main/kotlin/controllers/UserController.kt:204-211 | only update_user resolves |
| UserControllers.Auth | src/main/kotlin/controllers/UserController.kt:146-173 | the error is always AUTHENTICATION_ERROR; none exactly when user_id names a loaded user, session_id a loaded session, and the session's user_id is that user_id |
| UserControllers.AuthedUserOwnsSession | src/main/kotlin/controllers/UserController.kt:146-173 | an admitted request names a loaded user who owns the loaded session it names |
| UserControllers.ControllerState.constructor | src/main/kotlin/controllers/UserController.kt:132-133 | no user and an empty username |
| UserControllers.Before | src/main/kotlin/controllers/UserController.kt:183-195 | with a known user_id, adds username (the user's login) and user to the request and records both; otherwise the null-pointer failure and nothing recorded |
| UserControllers.UpdateReply | src/main/kotlin/controllers/UserController.kt:59-117 | a failed update keeps its code, and a field error names the field; after success an empty checksum is FIELD_IS_EMPTY and an unparseable one INCORRECT_FIELD_VALUE; status "ok" exactly when the update succeeded and the checksum is absent or parses; a positive checksum gives RESULT_OK_PENDING_IMAGE_UPLOAD |
| UserControllers.ReplyObject | src/main/kotlin/controllers/UserController.kt:118-125 | status and status_code always; message and field exactly when they are not empty |
| UserControllers.PendingUpload | src/main/kotlin/controllers/UserController.kt:98-106 | the client's session, or "" without one, and the request stamped with request_timestamp in seconds |
| UserControllers.UpdateUserExec | src/main/kotlin/controllers/UserController.kt:50-130 | the answer is the reply to the result of Users.updateUser on the users loaded before; file_requests gains the pending upload under the checksum exactly when the answer is RESULT_OK_PENDING_IMAGE_UPLOAD; the users after the call are UpdateState: unchanged without a known `user_id`, otherwise the found user replaced by the steps' result and saved only when every step passed |
| UserControllers.Answer | src/main/kotlin/controllers/UserController.kt:62-129 | the answer to a given updateUser result, and file_requests changed only for a pending upload |
| UserControllers.Decide | src/main/kotlin/controllers/UserController.kt:51-117 | the status, code, message and field that exec accumulates are those of UpdateReply |
| WebSocketControllers.CodeError | src/main/kotlin/controllers/ActionRouter.kt:33-36 | keys status "error", status_code the code's name, and the code's message |
| WebSocketControllers.DefaultAuth | src/main/kotlin/controllers/WebSocketController.kt:35-37 | never objects |
| WebSocketControllers.DefaultBefore | src/main/kotlin/controllers/WebSocketController.kt:47-49 | the request is unchanged |
| WebSocketControllers.Tagged | src/main/kotlin/controllers/WebSocketController.kt:60-68 | request_id and action are copied from the request when they are non-null there; every other key keeps its value; no key is lost |
| WebSocketControllers.TaggedIdempotent | src/main/kotlin/controllers/WebSocketController.kt:60-68 | tagging twice with the same request is tagging once |
| WebSocketControllers.After | src/main/kotlin/controllers/WebSocketController.kt:60-68 | the same response object comes back, its fields tagged in place |
| ActionRouters.RequestIdPassesAsWritten | src/main/kotlin/controllers/ActionRouter.kt:37-42 | passes exactly when request_id is present and its text is empty |
| ActionRouters.RequestIdPasses | src/main/kotlin/controllers/ActionRouter.kt:37-42 | a passing request carries a request_id |
| ActionRouters.RequestIdCheckInverted | src/main/kotlin/controllers/ActionRouter.kt:37-42 | for every request with a request_id the written check decides the opposite of the intended one; "12345" is refused and "" let through |
| ActionRouters.RouteOf | src/main/kotlin/controllers/ActionRouter.kt:43-55 | routes to a controller exactly when that controller's action function knows the name, to the action of that name |
| ActionRouters.ActionNamesDisjoint | src/main/kotlin/controllers/ActionRouter.kt:44-49 | no action name is known to two controllers |
| ActionRouters.ProcessAction | src/main/kotlin/controllers/ActionRouter.kt:29-56 | a refused request_id is answered with INTERNAL_ERROR and changes nothing; otherwise the result is Routed by the action's route: an unknown action (INTERNAL_ERROR) and a refusal of the controller's `auth` change nothing, and an executed action gives the answer and the new users, sessions, rooms cursor and file requests its route states |
| ActionRouters.RunLogin | src/main/kotlin/controllers/ActionRouter.kt:45 | LoginRouteDone: register_user answers RegisterReply and changes only the users (RegisterState); login_user answers the reply to LoginOutcome and changes only the sessions (LoginState) and the rooms cursor; logout_user answers "ok" and only removes the named session from list and store |
| ActionRouters.RunUser | src/main/kotlin/controllers/ActionRouter.kt:45 | UserRouteDone: the reply to Users.updateUser's result; the users become UpdateState, file_requests gains the pending upload only for RESULT_OK_PENDING_IMAGE_UPLOAD, and nothing else changes |
| ActionRouters.RouteUser | src/main/kotlin/controllers/ActionRouter.kt:45-49 | UserRouted: a refusal of UserController.auth is AUTHENTICATION_ERROR and changes nothing; otherwise update_user runs as UserRouteDone states |
| ActionRouters.RouteAdmin | src/main/kotlin/controllers/ActionRouter.kt:45-49 | AdminRouted: a refusal of AdminController.auth is AUTHENTICATION_ERROR and changes nothing; otherwise the admin action runs as AdminRouteDone states |
| ActionRouters.RunAdmin | src/main/kotlin/controllers/ActionRouter.kt:49 | AdminRouteDone: the two list actions, admin_get_user and admin_send_activation_email change nothing and answer as ListAnswered, GetUser and SendActivationEmail state; add, update and remove answer and change the state as AddUserDone, UpdateUserDone and RemoveUsersDone state |
| ActionRouters.RunUsersList | src/main/kotlin/controllers/AdminController.kt:43-64 | UsersListed: a query error as it is, otherwise the users listed under one of the request's sort entries with their presentations and order, no row holding a password |
| ActionRouters.RunRoomsList | src/main/kotlin/controllers/AdminController.kt:383-404 | ListAnswered: a query error as it is, otherwise the rooms listed under one of the request's sort entries |
| ActionRouters.RunAddUser | src/main/kotlin/controllers/AdminController.kt:141-178 | AddUserDone: a refusal is answered and changes nothing; an accepted user is appended and saved under the fresh ObjectId and answered without its password; the sessions are untouched |
| ActionRouters.RunUpdateUser | src/main/kotlin/controllers/AdminController.kt:194-241 | UpdateUserDone: unparsable fields, a missing id and a refusal change nothing; an accepted user replaces the loaded user of that id in place and is saved under it |
| ActionRouters.RunRemoveUsers | src/main/kotlin/controllers/AdminController.kt:255-311 | RemoveUsersDone: a missing, unparsable or emptied list changes nothing; otherwise the listed loaded users other than the requester leave list and store with all their sessions, and "count" is their number |
| ChatApp.App.constructor | src/main/kotlin/core/ChatApplication.kt:70-72 | three distinct fresh collections with the users, sessions and rooms schemas over the given stores, nothing loaded, no pending file requests |

## Left out

- Floating point: the `Double` branches of `DBModel.set`, `DBCollection.getSortOrder` and `AdminController.createModel`; schemas hold only `Int`, `String`, `Boolean` and `Any` fields.
- MongoDB: `DBModel.save`/`load`/`remove`, `Session.load`, the database reads of `loadList` and the `find().count()` checks are modelled by the keyed map `stored` of each collection; queries, cursors and connection errors are not modelled.
- The callbacks the interactors take are modelled as return values, because every callback in the core runs synchronously before the call returns.
- DBCollections.AddItem: always fills the new model by the collection's own schema; the optional `schema` argument of `addItem`, which only tests pass, is not modelled.
- Aliasing of model objects between the collection and the caller is replaced by writing the changed document back explicitly.
- The file system: deleting profile images in `removeUsers`, and reading the profile image and its CRC32 checksum in `login_user`. The login answer never carries `checksum` or `file`.
- Sending e-mail (`SendMail`) is the boolean parameter `emailSent`.
- Logging, the clock and the WebSocket session: the logger is dropped, the time is `Env.nowMillis`, and the remote session is a `Value` parameter.
- JSON text serialisation and ObjectId rendering: `Text` of an array or an object is a placeholder, and a fresh ObjectId is a given string.
- `HashMap` iteration order: documents are maps, and a response is a map of keys to values without order.
- Kotlin's in-place `sortWith` is modelled by a stable sort ordered by the comparator (an insertion sort on a sequence); the update of the list in place is not modelled.
- Strings.Lower: lower-cases ASCII capitals only; Kotlin's `toLowerCase` also maps non-ASCII letters through the Unicode case tables, which are not part of this model.
- Strings.Capitalize: upper-cases a leading ASCII small letter only; Kotlin's `capitalize` also maps non-ASCII letters (title case), which the model leaves as they are.
- Strings.EqualsIgnoreCase: ignores the case of ASCII letters only; Kotlin's `equals(ignoreCase = true)` also folds non-ASCII letters. `toBoolean` is unaffected, since no non-ASCII character folds to a letter of "true".
- Strings.ParseDecimal: accepts ASCII digits only; Java's `parseInt` and `parseLong` also accept the other Unicode decimal digits.
- Strings.CompareStr: orders characters by code point, while Kotlin's `compareTo` orders UTF-16 code units; the two differ only when a character above U+FFFF meets one between U+E000 and U+FFFF.
- AdminControllers.UpdateKeepsUnique: holds only when the updated user's stored login and email are strings without surrounding whitespace. validateFields compares a taken value with the trimmed stored one (AdminController.kt:749-750), so a user stored with login "bob " can be renamed "bob" while another user holds "bob".
- AdminControllers.GetUser: Int and Long are one value kind (`VInt`), so a numeric query value such as `{"role": 2}` finds a user whose Int field holds 2. In the source the request's number is a json-simple `Long` and the stored field an `Integer`; if `JSONToPair` keeps the `Long`, the `==` of `getBy` never matches and the answer is RESULT_ERROR_OBJECT_NOT_FOUND. `JSONToPair` is not part of this model.
- LoginController's `logout_user` overrides `auth` and `before` to delegate to UserController (LoginController.kt:226-237). processAction never calls them: it applies the controller-level `LoginController.auth`, which always returns null, so `logout_user` runs unauthenticated through the router, as modelled. The overrides themselves are not modelled.
- The legacy `core/Users.kt`, `core/Rooms.kt`, `models/User.kt` and the WebSocket listener of `MessageCenter.kt` are not part of this model; the rooms and messages schemas appear as constants.

## Findings

| source | as written | input that shows it | evidently intended | confidence | as-written member | corrected member |
|---|---|---|---|---|---|---|
| src/main/kotlin/interactors/Sessions.kt:56-61 | `addModel` looks `user_id` up among the users, a field no user has, so it never refuses | a session `{user_id: "u1"}` added while session "s1" of "u1" is loaded | a second session of the same user is refused | not executed | Sessions.AsWrittenAddsSecondSession | Sessions.AddSessionKeepsOnePerUser |
| src/main/kotlin/controllers/ActionRouter.kt:37-42 | the request is refused when `request_id` is missing or NOT empty | `request_id` "12345" is refused and "" is accepted | refuse a missing or empty `request_id` | not executed | ActionRouters.RequestIdCheckInverted | ActionRouters.RequestIdPasses |
| src/main/kotlin/interactors/Users.kt:365-367 | `continue` skips `result++` for a removed user who had no sessions | removing user "u1", who has no sessions, returns 0 | the count is the number of users removed | not executed | Users.RemovedUserWithoutSessions | Users.RemoveUsers |
| src/main/kotlin/controllers/AdminController.kt:165-166 | `save` stores the new user under one fresh ObjectId without writing it back, and `addModel` gives the loaded model another | ObjectIds "a" for `save` and "b" for `addModel`: the store holds "a" and the loaded user is "b" | one `_id` shared by the loaded and the stored user | not executed | AdminControllers.StoredUserLostAsWritten | AdminControllers.InsertUser |
| src/main/kotlin/interactors/Users.kt:181-192 | a login by user id accepts any live session, also another user's | user "u1" logs in with the session "s2" of user "u2" | the session must belong to the user logging in | not executed | Users.LoginWithForeignSession | Users.LoginAuthenticates |
| src/main/kotlin/controllers/AdminController.kt:849-859 | validateFields hashes whatever password the document holds; on an update that document starts from the loaded user, so the stored BCrypt hash is hashed again | user "u1" with stored hash h updated with `[{"first_name": "Ann"}]`: the saved password is hashpw(h), and u1's old password no longer matches | only a password the admin's items give is hashed; an update without one keeps the stored hash | not executed | AdminValidation.UpdateRehashesAsWritten | AdminValidation.UpdateKeepsPassword |
