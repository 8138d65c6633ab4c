/**
 * The SQLite database behind the backend, as a value: the `users` table (username to row),
 * the AUTOINCREMENT counter of its ids and the messages of the `logs` table in insertion order.
 * `Insert` is `INSERT INTO users (username, password) VALUES (?, ?)` as better-sqlite3 runs it.
 */
module Store {

  datatype Option<T> = None | Some(value: T)

  /** A row of `users`: its AUTOINCREMENT id and the stored bcrypt string (`password` column). */
  datatype User = User(id: int, hash: string)

  datatype Db = Db(users: map<string, User>, nextId: int, logs: seq<string>)

  /** A freshly created database file: both tables empty, no id handed out yet. */
  const Empty := Db(map[], 1, [])

  /** The largest rowid SQLite can hand out (a signed 64-bit integer). */
  const MaxRowId: int := 0x7FFF_FFFF_FFFF_FFFF

  /** The error code better-sqlite3 reports when the `username` UNIQUE constraint fails. */
  const UniqueViolation := "SQLITE_CONSTRAINT_UNIQUE"

  /** The error code of an AUTOINCREMENT table whose largest possible rowid was already used. */
  const TableFull := "SQLITE_FULL"

  /**
   * What the schema guarantees: every id was handed out by the counter (so is below it)
   * and no two rows share an id. Uniqueness of usernames is built into the map.
   */
  predicate Valid(db: Db) {
    && 1 <= db.nextId <= MaxRowId + 1
    && (forall u :: u in db.users ==> 1 <= db.users[u].id < db.nextId)
    && (forall u, v :: u in db.users && v in db.users && u != v ==> db.users[u].id != db.users[v].id)
  }

  datatype InsertResult = Inserted(id: int) | Failed(code: string)

  datatype InsertStep = InsertStep(result: InsertResult, db: Db)

  /**
   * One INSERT into `users`. `fault` is an error the engine raises for reasons outside this
   * model (a busy or read-only database, an I/O error); otherwise the row gets the next
   * AUTOINCREMENT id unless the ids are exhausted or the username is already taken.
   */
  function Insert(db: Db, username: string, hash: string, fault: Option<string>): (out: InsertStep)
    ensures out.db.logs == db.logs
    ensures out.result.Failed? ==> out.db == db
    ensures out.result.Inserted? <==> fault.None? && db.nextId <= MaxRowId && username !in db.users
    ensures fault.Some? ==> out.result == Failed(fault.value)
    ensures fault.None? && db.nextId > MaxRowId ==> out.result == Failed(TableFull)
    ensures fault.None? && db.nextId <= MaxRowId && username in db.users ==>
              out.result == Failed(UniqueViolation)
    ensures out.result.Inserted? ==>
              && out.db.users.Keys == db.users.Keys + {username}
              && out.db.users[username] == User(out.result.id, hash)
              && (forall u :: u in db.users ==> out.db.users[u] == db.users[u])
              && (Valid(db) ==> forall u :: u in db.users ==> db.users[u].id < out.result.id)
    ensures Valid(db) ==> Valid(out.db)
  {
    if fault.Some? then InsertStep(Failed(fault.value), db)
    else if db.nextId > MaxRowId then InsertStep(Failed(TableFull), db)
    else if username in db.users then InsertStep(Failed(UniqueViolation), db)
    else
      var row := User(db.nextId, hash);
      InsertStep(Inserted(db.nextId), db.(users := db.users[username := row], nextId := db.nextId + 1))
  }

  /** `INSERT INTO logs (message) VALUES (?)`. */
  function Append(db: Db, message: string): (db': Db)
    ensures db'.users == db.users && db'.nextId == db.nextId
    ensures |db'.logs| == |db.logs| + 1 && db'.logs[..|db.logs|] == db.logs && db'.logs[|db.logs|] == message
  {
    db.(logs := db.logs + [message])
  }
}
