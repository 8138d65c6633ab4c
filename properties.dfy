/**
 * What the backend promises across several calls: trimming is stable, a successful
 * signup can be logged into, the two login failures cannot be told apart, a taken
 * username is never overwritten, the demo account is created at most once, and the audit
 * log only ever grows by one message per request.
 */
module Properties {
  import opened Validation
  import opened Http
  import opened Store
  import opened Handlers

  /** Sanitizing a field twice gives what sanitizing it once gives. */
  lemma TrimIdempotent(s: string)
    ensures Trim(Trim(s)) == Trim(s)
  {
    var r := Trim(s);
    assert LeadingSpaces(r) == 0;
    assert ContentEnd(r) == |r|;
  }

  /** Trimming ignores whitespace padding around a value. */
  lemma TrimIgnoresPadding(pre: string, s: string, post: string)
    requires AllSpace(pre) && AllSpace(post)
    ensures Trim(pre + s + post) == Trim(s)
  {
    TrimIgnoresPrefix(pre, s + post);
    assert pre + s + post == pre + (s + post);
    TrimIgnoresSuffix(s, post);
  }

  lemma {:induction false} TrimIgnoresPrefix(pre: string, s: string)
    requires AllSpace(pre)
    ensures Trim(pre + s) == Trim(s)
  {
    if pre == [] {
      assert pre + s == s;
    } else {
      assert (pre + s)[1..] == pre[1..] + s;
      TrimDropsLeadingSpace(pre + s);
      TrimIgnoresPrefix(pre[1..], s);
    }
  }

  lemma {:induction false} TrimIgnoresSuffix(s: string, post: string)
    requires AllSpace(post)
    ensures Trim(s + post) == Trim(s)
  {
    if post == [] {
      assert s + post == s;
    } else {
      var post' := post[..|post| - 1];
      TrimDropsLastPadding(s, post);
      assert AllSpace(post') by {
        assert forall i :: 0 <= i < |post'| ==> post'[i] == post[i];
      }
      TrimIgnoresSuffix(s, post');
    }
  }

  lemma TrimDropsLastPadding(s: string, post: string)
    requires post != [] && IsSpace(post[|post| - 1])
    ensures Trim(s + post) == Trim(s + post[..|post| - 1])
  {
    var x := s + post;
    assert x[..|x| - 1] == s + post[..|post| - 1];
    assert x[|x| - 1] == post[|post| - 1];
    TrimDropsTrailingSpace(x);
  }

  lemma TrimDropsLeadingSpace(x: string)
    requires x != [] && IsSpace(x[0])
    ensures Trim(x) == Trim(x[1..])
  {
    assert LeadingSpaces(x) == 1 + LeadingSpaces(x[1..]);
    assert x[LeadingSpaces(x)..] == x[1..][LeadingSpaces(x[1..])..];
  }

  lemma TrimDropsTrailingSpace(x: string)
    requires x != [] && IsSpace(x[|x| - 1])
    ensures Trim(x) == Trim(x[..|x| - 1])
  {
    var t := x[..|x| - 1];
    assert x == t + [x[|x| - 1]];
    LeadingSpacesAppend(t, x[|x| - 1]);
    var k := LeadingSpaces(t);
    assert x[k..] == t[k..] + [x[|x| - 1]];
    ContentEndAppend(t[k..], x[|x| - 1]);
  }

  lemma {:induction false} LeadingSpacesAppend(t: string, c: char)
    requires IsSpace(c)
    ensures LeadingSpaces(t + [c]) == if LeadingSpaces(t) == |t| then |t| + 1 else LeadingSpaces(t)
  {
    if t != [] {
      assert (t + [c])[1..] == t[1..] + [c];
      if IsSpace(t[0]) {
        LeadingSpacesAppend(t[1..], c);
      }
    }
  }

  lemma ContentEndAppend(t: string, c: char)
    requires IsSpace(c)
    ensures ContentEnd(t + [c]) == ContentEnd(t)
  {
    assert (t + [c])[..|t|] == t;
  }

  /** A password that passes the signup rules also passes the login rules. */
  lemma SignupRulesImplyLoginRules(username: string, password: string)
    requires SignupErrors(username, password) == []
    ensures LoginErrors(username, password) == []
  {
    assert Trim(password) != [];
  }

  /**
   * The round trip: after a successful signup, logging in with the same fields succeeds,
   * and so does any login whose fields trim to the same values.
   */
  lemma SignupThenLogin(db: Db, username: string, password: string, username': string, password': string,
                        hash: string -> string, verify: (string, string) -> bool, fault: Option<string>)
    requires Sound(hash, verify)
    requires Signup(db, username, password, hash, fault).response == UserCreated
    requires Trim(username') == Trim(username) && Trim(password') == Trim(password)
    ensures LoginResponse(Signup(db, username, password, hash, fault).db.users, username', password', verify)
            == LoginSucceeded
  {
    SignupRulesImplyLoginRules(username, password);
    assert !AllSpace(username') && !AllSpace(password');
    var users := Signup(db, username, password, hash, fault).db.users;
    assert users[Trim(username)].hash == hash(Trim(password));
    assert verify(Trim(password), hash(Trim(password)));
  }

  /** The stored password column is bcrypt's output, never the password that was sent. */
  lemma SignupStoresDigest(db: Db, username: string, password: string,
                           hash: string -> string, verify: (string, string) -> bool, fault: Option<string>)
    requires Sound(hash, verify)
    requires Signup(db, username, password, hash, fault).response == UserCreated
    ensures var stored := Signup(db, username, password, hash, fault).db.users[Trim(username)].hash;
            stored != Trim(password) && verify(Trim(password), stored)
  {
  }

  /**
   * An unknown username and a wrong password get byte-for-byte the same answer, whatever
   * else the two stores hold.
   */
  lemma LoginFailuresIndistinguishable(absent: map<string, User>, present: map<string, User>,
                                       username: string, password: string, verify: (string, string) -> bool)
    requires LoginErrors(username, password) == []
    requires Trim(username) !in absent
    requires Trim(username) in present && !verify(Trim(password), present[Trim(username)].hash)
    ensures LoginResponse(absent, username, password, verify) == InvalidCredentials
    ensures LoginResponse(present, username, password, verify) == InvalidCredentials
  {
  }

  /** A login that fails validation never looks at the store. */
  lemma InvalidLoginIgnoresStore(users: map<string, User>, users': map<string, User>,
                                 username: string, password: string, verify: (string, string) -> bool)
    requires AllSpace(username) || AllSpace(password)
    ensures LoginResponse(users, username, password, verify) == LoginResponse(users', username, password, verify)
    ensures LoginResponse(users, username, password, verify).status == 400
  {
  }

  /** A signup that fails validation is answered from the fields alone and changes nothing. */
  lemma InvalidSignupIgnoresStore(db: Db, db': Db, username: string, password: string,
                                  hash: string -> string, hash': string -> string,
                                  fault: Option<string>, fault': Option<string>)
    requires AllSpace(username) || Length(Trim(password)) < MinPasswordLength
    ensures Signup(db, username, password, hash, fault).response
            == Signup(db', username, password, hash', fault').response
    ensures Signup(db, username, password, hash, fault).db == db
    ensures Signup(db, username, password, hash, fault).response.status == 400
  {
  }

  /**
   * Two signups for the same trimmed username: the second is refused with 400 and leaves the
   * first account exactly as it was.
   */
  lemma SignupTwice(db: Db, username: string, password: string, username': string, password': string,
                    hash: string -> string, hash': string -> string, fault: Option<string>)
    requires Valid(db) && db.nextId < MaxRowId
    requires Signup(db, username, password, hash, fault).response == UserCreated
    requires Trim(username') == Trim(username) && SignupErrors(username', password') == []
    ensures var first := Signup(db, username, password, hash, fault).db;
            Signup(first, username', password', hash', None) == Step(UsernameTaken, first)
  {
  }

  /** Start-up on a database that already has the demo account leaves it untouched. */
  lemma BootstrapIdempotent(db: Db, hash: string -> string, hash': string -> string,
                            fault: Option<string>, fault': Option<string>)
    requires DefaultUsername in Bootstrap(db, hash, fault).users
    ensures Bootstrap(Bootstrap(db, hash, fault), hash', fault') == Bootstrap(db, hash, fault)
  {
  }

  /**
   * Over any run the AUTOINCREMENT counter never goes back, every account keeps its row,
   * and the table invariant holds.
   */
  lemma {:induction false} RunKeepsAccounts(db: Db, calls: seq<Call>, verify: (string, string) -> bool)
    ensures Run(db, calls, verify).nextId >= db.nextId
    ensures forall u :: u in db.users ==>
              u in Run(db, calls, verify).users && Run(db, calls, verify).users[u] == db.users[u]
    ensures Valid(db) ==> Valid(Run(db, calls, verify))
    decreases |calls|
  {
    if calls != [] {
      var next := Handle(db, calls[0].req, calls[0].hash, verify, calls[0].fault).db;
      assert next.nextId >= db.nextId by {
        var logged := Append(db, LogLine(calls[0].req.verb, calls[0].req.path));
        if RouteOf(calls[0].req) == SignupHandler {
          assert next == Signup(logged, calls[0].req.username, calls[0].req.password,
                                calls[0].hash, calls[0].fault).db;
        }
      }
      RunKeepsAccounts(next, calls[1..], verify);
    }
  }

  /**
   * The audit log of a run is the old log followed by one `METHOD path` message per request,
   * in order: nothing is rewritten or removed.
   */
  lemma {:induction false} RunLogs(db: Db, calls: seq<Call>, verify: (string, string) -> bool)
    ensures Run(db, calls, verify).logs == db.logs + LogLines(calls)
    decreases |calls|
  {
    if calls != [] {
      var next := Handle(db, calls[0].req, calls[0].hash, verify, calls[0].fault).db;
      RunLogs(next, calls[1..], verify);
      assert LogLines(calls) == [LogLine(calls[0].req.verb, calls[0].req.path)] + LogLines(calls[1..]);
    }
  }

  /**
   * A restart runs `createDefaultUser` again on the same file: it keeps every account and
   * every log message, and never adds a second demo account.
   */
  lemma RestartKeepsData(db: Db, calls: seq<Call>, verify: (string, string) -> bool,
                         hash: string -> string, fault: Option<string>,
                         hash': string -> string, fault': Option<string>)
    requires Valid(db)
    ensures var before := Run(Bootstrap(db, hash, fault), calls, verify);
            var after := Bootstrap(before, hash', fault');
            && after.logs == db.logs + LogLines(calls)
            && (forall u :: u in before.users ==> u in after.users && after.users[u] == before.users[u])
            && (DefaultUsername in before.users ==> after == before)
            && Valid(after)
  {
    var booted := Bootstrap(db, hash, fault);
    RunLogs(booted, calls, verify);
    RunKeepsAccounts(booted, calls, verify);
  }
}
