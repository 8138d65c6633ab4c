# Authentication backend of the SQLite/Express/React template, in Dafny

The backend (`backend/index.js`) keeps two SQLite tables. `users` holds an AUTOINCREMENT id,
a UNIQUE username and a bcrypt hash. `logs` holds one `METHOD path` message per request.
Every request first passes the logging middleware. Then the router hands it to one of two handlers:

- `POST /api/login` trims both fields and requires both to be non-empty. It looks the
  username up and compares the password with the stored hash. An unknown user and a wrong
  password get the same 401 `{error: "Invalid credentials"}`; a match gets 200
  `{message: "Login successful"}`.
- `POST /api/signup` trims both fields. It requires a non-empty username and a password of
  length at least 6, hashes the password and inserts the row. It answers 201 on success.
  It is meant to answer 400 "Username already exists" for a taken username and 500 for any
  other store error. As written, a taken username also gets 500, because the error-code
  test at line 92 never matches (see "## Findings").

At start-up `createDefaultUser` inserts the demo account `user`/`user` and ignores any error.

The model:

- `validation.dfy` (module `Validation`): express-validator's `trim()` sanitizer, with
  JavaScript's `\s` as the whitespace class. Also validator.js's `isLength` measure and the
  two validator chains, which yield the `errors.array()` entries.
- `http.dfy` (module `Http`): requests, the JSON responses, and Express's default route
  matching. That matching ignores ASCII case and allows one trailing slash.
- `store.dfy` (module `Store`): the database as a value. It holds the username-to-row map,
  the AUTOINCREMENT counter and the log messages. The INSERT into `users` has SQLite's
  rules: ids come from the counter, up to 2^63 - 1, then `SQLITE_FULL`; a taken username
  gives `SQLITE_CONSTRAINT_UNIQUE`; a failed insert changes nothing.
- `handlers.dfy` (module `Handlers`): the handlers, the start-up insert and the whole
  request pipeline as pure functions of the database. `Signup`, and `Handle` and the class
  methods built on it, use the corrected error mapping; `SignupAsWritten` keeps the one at
  line 92.
- `server.dfy` (module `Backend`): class `Server`. Its fields `users`, `nextId` and `logs`
  are updated in place by `LogRequest`, `Insert`, `Signup`, `Bootstrap` and `Handle`. Each
  method is proved equal to the pure function.
- `properties.dfy` and `scenarios.dfy`: lemmas that relate several calls.

Three things are parameters:

- bcrypt: `hash` is one call of `bcrypt.hash` with its own salt, so every request carries
  its own function. `verify` is `bcrypt.compare`.
- The store's unexpected failures: `fault` is the SQLite error code of such a failure, or `None`.
- bcrypt's assumed behaviour: the predicate `Handlers.Sound` says a hash verifies against
  the password it came from and never equals it. This is an assumption about bcrypt, not
  something the backend shows. Only lemmas require it.

Points where the code may surprise a reader, followed as written:

- The password-length rule applies to the trimmed password.
- The trimmed values are the ones looked up, hashed and compared.
- An error from the audit-log insert is not caught.
- There is no shutdown or grace-window logic in the code.

## Model

| member | source | states |
|---|---|---|
| `Validation.LeadingSpaces` | backend/index.js:52-53 | the leading whitespace run `ltrim` drops: all of it is whitespace and the next character is not |
| `Validation.ContentEnd` | backend/index.js:52-53 | where the trailing whitespace run `rtrim` drops begins: everything after is whitespace and the character before is not |
| `Validation.Trim` | backend/index.js:52-53 | the sanitized field is empty exactly when the input is all whitespace, neither starts nor ends with whitespace, and is the input with only whitespace cut from both ends |
| `Validation.Length` | backend/index.js:78 | `isLength` counts at most one per character, and exactly one per character when the field has no variation selector; a single character measures 1, or 0 when it is U+FE0E or U+FE0F |
| `Validation.LengthAppend` | backend/index.js:78 | the measure of a concatenation is the sum of the measures, so with the single-character case it fixes the count of every string |
| `Validation.LoginErrors` | backend/index.js:51-58 | no errors exactly when both fields hold a non-whitespace character; a username (password) error is present exactly when that field is all whitespace; the list is exactly the username's error (if any) followed by the password's, so no entry for a passing field |
| `Validation.SignupErrors` | backend/index.js:76-83 | no errors exactly when the username holds a non-whitespace character and the trimmed password measures at least 6; each failing field is reported with its trimmed value; the list is exactly the username's error (if any) followed by the password's, so no entry for a passing field |
| `Http.RoutesDisjoint` | backend/index.js:51-76 | no request path matches both `/api/login` and `/api/signup` |
| `Http.RouteOf` | backend/index.js:51-76 | a request reaches the login (signup) handler exactly when it is a POST whose path matches that route |
| `Store.Insert` | backend/index.js:16-21 | an insert succeeds exactly when there is no fault, the AUTOINCREMENT ids are not exhausted and the username is new; then it adds exactly that row, with an id above every existing id, and keeps all other rows; any failure leaves the database unchanged; a fault fails with its own code, exhausted ids with `SQLITE_FULL`, a taken username with `SQLITE_CONSTRAINT_UNIQUE`; the log is untouched and the table invariant kept |
| `Store.Append` | backend/index.js:23-27 | a log insert keeps every earlier message in place and adds the new one last; users and counter unchanged |
| `Handlers.LoginResponse` | backend/index.js:51-73 | invalid fields give 400 with the field errors; 200 exactly when the fields are valid, the trimmed username is stored and its hash verifies against the trimmed password; every other valid request gets 401 "Invalid credentials" |
| `Handlers.SignupReply` | backend/index.js:88-97 | corrected mapping, see Findings: a successful insert answers 201, a constraint-class error code 400 "Username already exists", any other code 500 "Server error" |
| `Handlers.SignupReplyAsWritten` | backend/index.js:91-96 | as written: only the exact code `SQLITE_CONSTRAINT` answers 400; every other failure 500 |
| `Handlers.Signup` | backend/index.js:76-98 | corrected mapping, see Findings: invalid fields give 400 with the errors and an unchanged database; 201 exactly when fields are valid, no fault, ids remain and the trimmed username is new, and then exactly one row is added holding `hash(trimmed password)` with a fresh largest id; a taken name answers 400 "Username already exists"; a non-constraint fault answers 500, and so do exhausted ids (`SQLITE_FULL`); any non-201 leaves the database unchanged; the log is untouched |
| `Handlers.SignupAsWritten` | backend/index.js:76-98 | the handler with the error mapping as written changes the database exactly as the corrected one and answers 201 in the same cases; where the two answers differ, the corrected one is 400 "Username already exists" and the one as written is 500 "Server error" |
| `Handlers.Bootstrap` | backend/index.js:31-38 | the start-up insert keeps every existing row, adds at most the `user` account (with the hash of `user`), adds it whenever there is no fault and ids remain, changes nothing when `user` exists or when the insert fails (the error is swallowed), never touches the log, keeps the table invariant |
| `Handlers.Handle` | backend/index.js:42-76 | corrected mapping, see Findings: every request appends exactly its `METHOD path` message to the log; a POST to `/api/login` gets the login answer, a POST to `/api/signup` gets the signup step on the logged database, and any other request gets the 404; only signup can change users or the counter; no existing row is ever changed or removed; the table invariant is kept |
| `Handlers.LogLines` | backend/index.js:44 | one `METHOD path` message per request, in request order |
| `Backend.Server.constructor` | backend/index.js:14-28 | a new database has no users, no log messages and the counter at 1 |
| `Backend.Server.LogRequest` | backend/index.js:42-46 | the `logs` field becomes the old messages plus this request's message |
| `Backend.Server.Insert` | backend/index.js:89 | the in-place insert returns and leaves exactly what `Store.Insert` describes |
| `Backend.Server.Login` | backend/index.js:51-73 | the login handler's answer is the one `Handlers.LoginResponse` characterises, read from the current `users` |
| `Backend.Server.Signup` | backend/index.js:76-98 | corrected mapping, see Findings: the answer and the new fields are those of `Handlers.Signup`; the table invariant is kept |
| `Backend.Server.Bootstrap` | backend/index.js:31-39 | the new fields are those of `Handlers.Bootstrap`; the table invariant is kept |
| `Backend.Server.Handle` | backend/index.js:42-98 | corrected mapping, see Findings: log first, then route: the answer and new fields are those of `Handlers.Handle`; the table invariant is kept |
| `Properties.TrimIdempotent` | backend/index.js:52-53 | sanitizing twice equals sanitizing once |
| `Properties.TrimIgnoresPadding` | backend/index.js:52-53 | whitespace added before or after a field does not change its sanitized value |
| `Properties.SignupRulesImplyLoginRules` | backend/index.js:51-78 | fields accepted by the signup rules are accepted by the login rules |
| `Properties.SignupThenLogin` | backend/index.js:60-90 | after a successful signup, a login whose fields trim to the same values answers 200 |
| `Properties.SignupStoresDigest` | backend/index.js:85-90 | after a successful signup the stored column verifies against the trimmed password and is not that password |
| `Properties.LoginFailuresIndistinguishable` | backend/index.js:61-70 | an unknown username and a password that does not verify get the identical 401 answer |
| `Properties.InvalidLoginIgnoresStore` | backend/index.js:51-58 | a login with an all-whitespace field answers 400 with the same body whatever the store holds |
| `Properties.InvalidSignupIgnoresStore` | backend/index.js:76-83 | a signup failing validation answers 400 regardless of store, hash and fault, and changes nothing |
| `Properties.SignupTwice` | backend/index.js:88-93 | a second signup for a taken trimmed name answers 400 and leaves the database exactly as the first left it |
| `Properties.BootstrapIdempotent` | backend/index.js:31-38 | once the demo account exists, running the start-up insert again changes nothing |
| `Properties.RunKeepsAccounts` | backend/index.js:16-19 | over any run of requests the counter never decreases, every account stays exactly as it was, and the table invariant holds |
| `Properties.RunLogs` | backend/index.js:42-48 | after any run of requests the log is the old log followed by one message per request, in order |
| `Properties.RestartKeepsData` | backend/index.js:15-39 | a restart after a run keeps every account and every log message and adds no second demo account |
| `Scenarios.DuplicateSignupAsWritten` | backend/index.js:91-96 | for a taken username the handler as written answers 500 "Server error", the corrected one 400 "Username already exists"; both leave the database unchanged |
| `Scenarios.Walkthrough` | backend/index.js:51-98 | on a new database: signup 201, login with that password 200, login with a non-verifying password 401, second signup for the same name 400 (500 as written) |

## Findings

| source | as written | input that shows it | evidently intended | confidence | as-written member | corrected member |
|---|---|---|---|---|---|---|
| backend/index.js:92 | a duplicate is recognised only by `error.code === 'SQLITE_CONSTRAINT'` | `signup("alice","secret1")` then `signup("alice","secret2")`: better-sqlite3 enables SQLite's extended result codes, so the UNIQUE failure has code `SQLITE_CONSTRAINT_UNIQUE` and the answer is 500 "Server error" | a taken username answers 400 "Username already exists" | medium, not executed; rests on better-sqlite3 reporting extended result codes | `Scenarios.DuplicateSignupAsWritten` | `Handlers.Signup` |

## Left out

- bcrypt internals are parameters: salt generation, cost factor 10 and the hashing itself. No lemma says that only the exact password logs in. bcrypt ignores bytes past the 72nd, so `verify` may accept other passwords.
- `Handlers.Sound` is assumed by the lemmas that need it; nothing in the backend establishes it.
- The `cors()` and `express.json()` stages run before the logger and are not modelled. `cors` answers an `OPTIONS` preflight with 204, and `express.json` rejects a malformed JSON body with 400. Neither request is logged, so the model's requests start at the logger.
- Request bodies are modelled as two strings. A missing field reaches the validators as `""` (it fails them). Non-string JSON values and arrays are not modelled.
- The error objects keep `path`, `value` and `msg`; the constant keys `type` and `location` are dropped.
- Express's 404 page is abstracted as `CannotRoute(method, path)`; its HTML is not modelled.
- `createDefaultUser()` is not awaited, and concurrent requests interleave, including two signups racing at the UNIQUE constraint. The model serves one request at a time, with start-up before the first request.
- The audit insert is total: an error from the `logs` insert (disk failure, exhausted ids) would skip the handler and is not modelled. The log's own row ids are the message positions.
- `created_at` timestamps are clock values and are left out.
- `app.listen` and `PORT` are left out.
- Time is not expressible in the model. The not-found and mismatch paths do not equalise timing.
- `fault` is checked before id exhaustion and uniqueness. A fault whose code is of the constraint class would also answer 400 in the corrected handler; the `users` insert has no other constraint that can fail.
- Frontend files (React UI, routing, toasts, axios calls) are not part of this model. The demo password shown at frontend/src/components/LoginForm.jsx:47 (`'$user$'`) differs from the one hashed at start-up (`'user'`).
- JavaScript strings are UTF-16, and a JSON body can carry a lone surrogate, which `isLength` counts as one. Dafny's `char` cannot hold a lone surrogate, so `Validation.Length` covers well-formed text only.
- The login lookup's `SELECT` (backend/index.js:61) can throw, and the error is not caught. The model's login is total: it has no fault parameter.
