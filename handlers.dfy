/**
 * The request pipeline of backend/index.js as functions of the database value:
 * the logging middleware, the `/api/login` and `/api/signup` handlers, the
 * start-up creation of the demo account, and a run of many requests.
 *
 * bcrypt is a parameter: `hash` is one call of `bcrypt.hash(p, 10)` (a fresh salt per
 * call, so each request carries its own) and `verify` is `bcrypt.compare`.
 */
module Handlers {
  import opened Validation
  import opened Http
  import opened Store

  /**
   * What the backend relies on bcrypt for: a hash verifies against the password it was
   * made from, and is never that password itself.
   */
  ghost predicate Sound(hash: string -> string, verify: (string, string) -> bool) {
    forall p :: verify(p, hash(p)) && hash(p) != p
  }

  /** A response together with the database after the request. */
  datatype Step = Step(response: Response, db: Db)

  /**
   * `/api/login`: validate, look the trimmed username up, compare the trimmed password with
   * the stored hash. An unknown user and a wrong password get the same 401 answer.
   */
  function LoginResponse(users: map<string, User>, username: string, password: string,
                         verify: (string, string) -> bool): (r: Response)
    ensures LoginErrors(username, password) != [] ==> r == BadRequest(LoginErrors(username, password))
    ensures r == LoginSucceeded <==>
              && LoginErrors(username, password) == []
              && Trim(username) in users
              && verify(Trim(password), users[Trim(username)].hash)
    ensures LoginErrors(username, password) == [] && r != LoginSucceeded ==> r == InvalidCredentials
  {
    var errs := LoginErrors(username, password);
    if errs != [] then BadRequest(errs)
    else
      var name, pass := Trim(username), Trim(password);
      if name !in users then InvalidCredentials
      else if !verify(pass, users[name].hash) then InvalidCredentials
      else LoginSucceeded
  }

  /** The SQLite primary result code for constraint violations, and its extended codes. */
  predicate IsConstraintCode(code: string) {
    "SQLITE_CONSTRAINT" <= code
  }

  /**
   * The answer to a signup whose INSERT ran: 201 on success, 400 when a constraint
   * (the UNIQUE username) failed, 500 for anything else.
   */
  function SignupReply(result: InsertResult): (r: Response)
    ensures r == UserCreated <==> result.Inserted?
    ensures r == UsernameTaken <==> result.Failed? && IsConstraintCode(result.code)
    ensures r == ServerError <==> result.Failed? && !IsConstraintCode(result.code)
  {
    match result
    case Inserted(_) => UserCreated
    case Failed(code) => if IsConstraintCode(code) then UsernameTaken else ServerError
  }

  /**
   * The answer as backend/index.js:92 writes it: only an error whose code is exactly
   * `SQLITE_CONSTRAINT` counts as a duplicate.
   */
  function SignupReplyAsWritten(result: InsertResult): (r: Response)
    ensures r == UserCreated <==> result.Inserted?
    ensures r == UsernameTaken <==> result == Failed("SQLITE_CONSTRAINT")
    ensures result.Failed? && result.code != "SQLITE_CONSTRAINT" ==> r == ServerError
  {
    match result
    case Inserted(_) => UserCreated
    case Failed(code) => if code == "SQLITE_CONSTRAINT" then UsernameTaken else ServerError
  }

  /**
   * `/api/signup`: validate; hash the trimmed password; insert the trimmed username with the
   * hash; map the outcome to 201, 400 or 500. Nothing but a successful insert changes the database.
   */
  function Signup(db: Db, username: string, password: string, hash: string -> string,
                  fault: Option<string>): (out: Step)
    ensures out.db.logs == db.logs
    ensures out.response != UserCreated ==> out.db == db
    ensures SignupErrors(username, password) != [] ==>
              out == Step(BadRequest(SignupErrors(username, password)), db)
    ensures out.response == UserCreated <==>
              && SignupErrors(username, password) == []
              && fault.None? && db.nextId <= MaxRowId
              && Trim(username) !in db.users
    ensures out.response == UserCreated ==>
              && out.db.users.Keys == db.users.Keys + {Trim(username)}
              && out.db.users[Trim(username)].hash == hash(Trim(password))
              && (forall u :: u in db.users ==> out.db.users[u] == db.users[u])
              && (Valid(db) ==> forall u :: u in db.users ==>
                                  db.users[u].id < out.db.users[Trim(username)].id)
    ensures (SignupErrors(username, password) == [] && fault.None? && db.nextId <= MaxRowId
             && Trim(username) in db.users) ==> out.response == UsernameTaken
    ensures SignupErrors(username, password) == [] && fault.Some? && !IsConstraintCode(fault.value) ==>
              out.response == ServerError
    ensures SignupErrors(username, password) == [] && fault.None? && db.nextId > MaxRowId ==>
              out.response == ServerError
    ensures Valid(db) ==> Valid(out.db)
  {
    var errs := SignupErrors(username, password);
    if errs != [] then Step(BadRequest(errs), db)
    else
      var inserted := Insert(db, Trim(username), hash(Trim(password)), fault);
      Step(SignupReply(inserted.result), inserted.db)
  }

  /** `/api/signup` with the error mapping of backend/index.js:92 as written. */
  function SignupAsWritten(db: Db, username: string, password: string, hash: string -> string,
                           fault: Option<string>): (out: Step)
    ensures out.db == Signup(db, username, password, hash, fault).db
    ensures out.response == UserCreated <==> Signup(db, username, password, hash, fault).response == UserCreated
    ensures out.response != Signup(db, username, password, hash, fault).response ==>
              Signup(db, username, password, hash, fault).response == UsernameTaken && out.response == ServerError
  {
    var errs := SignupErrors(username, password);
    if errs != [] then Step(BadRequest(errs), db)
    else
      var inserted := Insert(db, Trim(username), hash(Trim(password)), fault);
      Step(SignupReplyAsWritten(inserted.result), inserted.db)
  }

  /** The demo account created at start-up: username `user`, password `user`. */
  const DefaultUsername := "user"
  const DefaultPassword := "user"

  /**
   * `createDefaultUser`: hash the demo password and insert the demo account, ignoring any
   * error. It never overwrites an account and never touches the log.
   */
  function Bootstrap(db: Db, hash: string -> string, fault: Option<string>): (db': Db)
    ensures db'.logs == db.logs
    ensures DefaultUsername in db.users ==> db' == db
    ensures db'.users.Keys <= db.users.Keys + {DefaultUsername}
    ensures forall u :: u in db.users ==> u in db'.users && db'.users[u] == db.users[u]
    ensures fault.None? && db.nextId <= MaxRowId ==> DefaultUsername in db'.users
    ensures fault.Some? || db.nextId > MaxRowId ==> db' == db
    ensures DefaultUsername !in db.users && DefaultUsername in db'.users ==>
              db'.users[DefaultUsername].hash == hash(DefaultPassword)
    ensures Valid(db) ==> Valid(db')
  {
    Insert(db, DefaultUsername, hash(DefaultPassword), fault).db
  }

  /**
   * One request: `logRequest` appends `METHOD path` first, then the router hands the
   * request to its handler, or to Express's 404 when no route matches.
   */
  function Handle(db: Db, req: Request, hash: string -> string, verify: (string, string) -> bool,
                  fault: Option<string>): (out: Step)
    ensures out.db.logs == db.logs + [LogLine(req.verb, req.path)]
    ensures RouteOf(req) != SignupHandler ==> out.db.users == db.users && out.db.nextId == db.nextId
    ensures forall u :: u in db.users ==> u in out.db.users && out.db.users[u] == db.users[u]
    ensures Valid(db) ==> Valid(out.db)
    ensures RouteOf(req) == LoginHandler ==>
              out.response == LoginResponse(db.users, req.username, req.password, verify)
    ensures RouteOf(req) == SignupHandler ==>
              out == Signup(Append(db, LogLine(req.verb, req.path)), req.username, req.password, hash, fault)
    ensures RouteOf(req) == NoRoute ==> out.response == NotFound(req.verb, req.path)
  {
    var logged := Append(db, LogLine(req.verb, req.path));
    match RouteOf(req)
    case LoginHandler => Step(LoginResponse(logged.users, req.username, req.password, verify), logged)
    case SignupHandler => Signup(logged, req.username, req.password, hash, fault)
    case NoRoute => Step(NotFound(req.verb, req.path), logged)
  }

  /** A request together with what bcrypt and the store do while it is served. */
  datatype Call = Call(req: Request, hash: string -> string, fault: Option<string>)

  /** Requests served one after another. */
  function Run(db: Db, calls: seq<Call>, verify: (string, string) -> bool): Db
    decreases |calls|
  {
    if calls == [] then db
    else Run(Handle(db, calls[0].req, calls[0].hash, verify, calls[0].fault).db, calls[1..], verify)
  }

  /** The audit messages of a run of requests, in order. */
  function LogLines(calls: seq<Call>): (lines: seq<string>)
    ensures |lines| == |calls|
    ensures forall i :: 0 <= i < |calls| ==> lines[i] == LogLine(calls[i].req.verb, calls[i].req.path)
  {
    if calls == [] then [] else [LogLine(calls[0].req.verb, calls[0].req.path)] + LogLines(calls[1..])
  }
}
