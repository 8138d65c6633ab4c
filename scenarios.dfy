/**
 * The duplicate-username path as backend/index.js:92 writes it, against the corrected
 * mapping the rest of the model uses, and a first and second signup followed through.
 */
module Scenarios {
  import opened Validation
  import opened Http
  import opened Store
  import opened Handlers
  import opened Properties

  /**
   * As written, a second signup for a taken username is answered 500 "Server error":
   * better-sqlite3 reports the UNIQUE failure as SQLITE_CONSTRAINT_UNIQUE, which is not
   * equal to SQLITE_CONSTRAINT. The corrected mapping answers 400 "Username already exists".
   * Neither touches the database.
   */
  lemma DuplicateSignupAsWritten(db: Db, username: string, password: string, hash: string -> string)
    requires db.nextId <= MaxRowId
    requires SignupErrors(username, password) == [] && Trim(username) in db.users
    ensures SignupAsWritten(db, username, password, hash, None) == Step(ServerError, db)
    ensures Signup(db, username, password, hash, None) == Step(UsernameTaken, db)
  {
    assert !IsConstraintCode(TableFull) by {
      assert TableFull[7] != "SQLITE_CONSTRAINT"[7];
    }
    assert IsConstraintCode(UniqueViolation) by {
      assert UniqueViolation[..17] == "SQLITE_CONSTRAINT";
    }
  }

  /**
   * The walk-through signup("alice", "secret1"), login("alice", "secret1"),
   * login("alice", "wrong"), signup("alice", "secret2"), for any such fields:
   * a first signup on a new database is 201; logging in with its password is 200; with a
   * password that does not verify, 401; a second signup for the same name is 400 (500 as
   * written) and leaves the first account as it was.
   */
  lemma Walkthrough(name: string, password: string, password': string, wrong: string,
                    hash: string -> string, hash': string -> string, verify: (string, string) -> bool)
    requires SignupErrors(name, password) == [] && SignupErrors(name, password') == []
    requires !AllSpace(wrong)
    requires Sound(hash, verify) && !verify(Trim(wrong), hash(Trim(password)))
    ensures var first := Signup(Empty, name, password, hash, None);
            && first.response == UserCreated
            && LoginResponse(first.db.users, name, password, verify) == LoginSucceeded
            && LoginResponse(first.db.users, name, wrong, verify) == InvalidCredentials
            && Signup(first.db, name, password', hash', None) == Step(UsernameTaken, first.db)
            && SignupAsWritten(first.db, name, password', hash', None) == Step(ServerError, first.db)
  {
    var first := Signup(Empty, name, password, hash, None);
    assert Valid(Empty);
    SignupThenLogin(Empty, name, password, name, password, hash, verify, None);
    SignupRulesImplyLoginRules(name, password);
    DuplicateSignupAsWritten(first.db, name, password', hash');
  }
}
