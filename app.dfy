/**
 * The shared state the interactors and controllers work on: the three
 * collections ChatApplication loads at start (users, rooms, sessions) with
 * the schemas their interactors declare, and the pending profile-image
 * requests of the message center.
 */
module ChatApp {
  import opened Json
  import opened DBModels
  import opened DBCollections

  /** The schema of interactors/Users.kt. */
  const UserSchema: Schema := map[
    ID := StringType, "login" := StringType, "password" := StringType, "email" := StringType,
    "default_room" := StringType, "active" := BooleanType, "first_name" := StringType,
    "last_name" := StringType, "gender" := StringType, "birthDate" := IntType, "role" := IntType]

  /** The schema of interactors/Sessions.kt. */
  const SessionSchema: Schema := map[
    ID := StringType, "user_id" := StringType, "loginTime" := IntType,
    "lastActivityTime" := IntType, "room" := StringType]

  /** The schema of interactors/Rooms.kt. */
  const RoomSchema: Schema := map[ID := StringType, "name" := StringType]

  /** Everything a request can change: each collection's models and store, the rooms cursor and the file requests. */
  datatype AppState = AppState(
    users: seq<Doc>, userStore: map<string, Doc>,
    sessions: seq<Doc>, sessionStore: map<string, Doc>,
    rooms: seq<Doc>, roomStore: map<string, Doc>, roomCursor: int,
    fileRequests: map<int, Obj>)

  /** The application object: its collections and the message center's file requests by checksum. */
  class App {
    const users: DBCollection
    const sessions: DBCollection
    const rooms: DBCollection
    var fileRequests: map<int, Obj>

    ghost predicate Valid()
      reads users, sessions, rooms
    {
      users != sessions && users != rooms && sessions != rooms &&
      users.schema == UserSchema && sessions.schema == SessionSchema && rooms.schema == RoomSchema &&
      users.Valid() && sessions.Valid() && rooms.Valid()
    }

    /** The current state of the application as a value. */
    ghost function Snapshot(): (s: AppState)
      reads this, users, sessions, rooms
      ensures s.users == users.models && s.sessions == sessions.models && s.roomCursor == rooms.currentItem
    {
      AppState(users.models, users.stored, sessions.models, sessions.stored,
               rooms.models, rooms.stored, rooms.currentItem, fileRequests)
    }

    /** The application after start-up with empty in-memory collections over the given stores. */
    constructor (userStore: map<string, Doc>, sessionStore: map<string, Doc>, roomStore: map<string, Doc>)
      ensures Valid() && fresh(users) && fresh(sessions) && fresh(rooms)
      ensures users.models == [] && sessions.models == [] && rooms.models == [] && fileRequests == map[]
      ensures users.stored == userStore && sessions.stored == sessionStore && rooms.stored == roomStore
    {
      users := new DBCollection(UserSchema, userStore);
      sessions := new DBCollection(SessionSchema, sessionStore);
      rooms := new DBCollection(RoomSchema, roomStore);
      fileRequests := map[];
    }
  }
}
