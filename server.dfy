/**
 * The running backend: the `users` and `logs` tables that the middleware and the handlers
 * change in place, as fields of one object. Every method is proved against the pure
 * definitions in Handlers and Store.
 */
module Backend {
  import opened Validation
  import opened Http
  import opened Store
  import Handlers

  class Server {
    var users: map<string, User>
    var nextId: int
    var logs: seq<string>

    /** The database the fields hold. */
    function State(): Db
      reads this
    {
      Db(users, nextId, logs)
    }

    predicate Valid()
      reads this
    {
      Store.Valid(State())
    }

    /** A new database file: `CREATE TABLE IF NOT EXISTS` on an empty file. */
    constructor ()
      ensures State() == Empty && Valid()
    {
      users, nextId, logs := map[], 1, [];
    }

    /** `logRequest`: the audit row for this request; existing rows stay as they are. */
    method LogRequest(verb: string, path: string)
      modifies this`logs
      ensures logs == old(logs) + [LogLine(verb, path)]
    {
      logs := logs + [LogLine(verb, path)];
    }

    /** The prepared `INSERT INTO users`: the row and the AUTOINCREMENT counter, or an error code. */
    method Insert(username: string, hash: string, fault: Option<string>) returns (result: InsertResult)
      modifies this`users, this`nextId
      ensures InsertStep(result, State()) == Store.Insert(old(State()), username, hash, fault)
    {
      if fault.Some? {
        return Failed(fault.value);
      }
      if nextId > MaxRowId {
        return Failed(TableFull);
      }
      if username in users {
        return Failed(UniqueViolation);
      }
      result := Inserted(nextId);
      users := users[username := User(nextId, hash)];
      nextId := nextId + 1;
    }

    /** The `/api/login` handler; it only reads `users`. */
    method Login(username: string, password: string, verify: (string, string) -> bool)
      returns (r: Response)
      ensures r == Handlers.LoginResponse(users, username, password, verify)
    {
      var errs := LoginErrors(username, password);
      if errs != [] {
        return BadRequest(errs);
      }
      var name, pass := Trim(username), Trim(password);
      if name !in users {
        return InvalidCredentials;
      }
      var valid := verify(pass, users[name].hash);
      if !valid {
        return InvalidCredentials;
      }
      return LoginSucceeded;
    }

    /** The `/api/signup` handler. */
    method Signup(username: string, password: string, hash: string -> string, fault: Option<string>)
      returns (r: Response)
      requires Valid()
      modifies this`users, this`nextId
      ensures Valid()
      ensures Handlers.Step(r, State()) == Handlers.Signup(old(State()), username, password, hash, fault)
    {
      var errs := SignupErrors(username, password);
      if errs != [] {
        return BadRequest(errs);
      }
      var name := Trim(username);
      var hashed := hash(Trim(password));
      var result := Insert(name, hashed, fault);
      r := Handlers.SignupReply(result);
    }

    /** `createDefaultUser`: the insert's error, if any, is swallowed. */
    method Bootstrap(hash: string -> string, fault: Option<string>)
      requires Valid()
      modifies this`users, this`nextId
      ensures Valid()
      ensures State() == Handlers.Bootstrap(old(State()), hash, fault)
    {
      var hashed := hash(Handlers.DefaultPassword);
      var _ := Insert(Handlers.DefaultUsername, hashed, fault);
    }

    /** One request through `app.use(logRequest)` and the router. */
    method Handle(req: Request, hash: string -> string, verify: (string, string) -> bool,
                  fault: Option<string>) returns (r: Response)
      requires Valid()
      modifies this
      ensures Valid()
      ensures Handlers.Step(r, State()) == Handlers.Handle(old(State()), req, hash, verify, fault)
    {
      ghost var before := State();
      LogRequest(req.verb, req.path);
      assert State() == Append(before, LogLine(req.verb, req.path));
      match RouteOf(req)
      case LoginHandler =>
        r := Login(req.username, req.password, verify);
      case SignupHandler =>
        r := Signup(req.username, req.password, hash, fault);
      case NoRoute =>
        r := NotFound(req.verb, req.path);
    }
  }
}
