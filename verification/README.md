# Authentication and account logic of go-fiber-jwt-user-management

This project models the decision logic of a small Go (Fiber + GORM) user
management backend. It covers the JWT authorization middleware, token issue
and verification, the account flows (register, login, profile, logout), and
the administrative CRUD handlers over user records. Everything is a pure
state machine over an abstract state: the users table is a map from primary
key to record with the next value of the id sequence, and the revoked-token
table is a set of token strings. Every handler is a total function from
(state, request, clock, secret) to (response, new state).

Password hashing (bcrypt), JWT signing and parsing (golang-jwt, HS256),
and the database's evaluation of an inline SQL condition are kept abstract. They are function values in `Libraries.Oracles`, and the
only facts the proofs assume about them are listed in `Libraries.Sound`:

- a password of at most 72 bytes matches its own hash;
- signing with a non-empty key succeeds;
- a signed token contains no space;
- a signed token parses back to its claims at any clock reading where they
  pass the library's time checks (`Libraries.TimelyAt`): an `exp` not before
  the clock, and an `iat` or `nbf` not after it, each numeric when present;
- a signed token that parses at all parses to its claims.

`JWT_SECRET` is the `secret` parameter. The clock is the `now` parameter,
in Unix seconds.

Modules follow the source layout:

- `GoStrings`: `strings.HasPrefix`/`TrimPrefix` and Go's byte length of a string.
- `Model`: model/user.go.
- `Http`: statuses, bodies, the `:id` parameter.
- `Database`: the tables.
- `Libraries`: the oracles for the hasher, the JWT library and SQL conditions.
- `Token`: utils/token.go.
- `Middleware`: middleware/jwt.go.
- `Authentication`: controller/authentication.go.
- `UserAdmin`: controller/user.go.
- `Router`: router/router.go.
- `Scenarios`: properties spanning several handlers.

The model follows the code in places where one might expect otherwise:

- Register answers with the full stored record, password hash included, not
  with a hash-free view.
- The ledger check and the signature check do not use the same string (see
  Findings).
- Expiry is checked both inside the JWT library and by the middleware.
- Register checks for a duplicate email before the password length. The
  admin create handler checks in the opposite order.
- The detail handler hands the raw `:id` text to gorm's `First`. Text that
  is not an integer literal is run as an SQL condition, so `/users/1=1`
  answers with the user with the smallest id. Update and delete compare the
  text with the integer key, so there the same text is a query error and 500.
- Every protected route runs the gate as written, including the doubled
  "Bearer " prefix described under Findings.

## Model

| member | source | states |
|---|---|---|
| GoStrings.TrimPrefixOnce | utils/token.go:42-43 | Trimming "Bearer " removes exactly one leading copy, so a doubled prefix leaves one copy behind |
| GoStrings.ByteLen | controller/authentication.go:35 | Go's `len` of a password counts UTF-8 bytes: at least the number of characters, at most four times it, and equal to it exactly when the string is ASCII |
| Model.ToDtoForgetsOnlyHash | model/user.go:14-22 | The response view of a user drops the password hash and nothing else: two users have the same view exactly when they differ at most in the hash |
| Database.FindByEmail | controller/authentication.go:155-163 | The email lookup finds a user exactly when some stored user has that email, returns a stored record with that email, and returns the one with the smallest primary key |
| Database.Insert | controller/authentication.go:55-60 | Creating a record adds exactly one record under the next sequence value, changes no other record and keeps the table well formed |
| Database.OrderedIds | controller/user.go:14-15 | Ordering by id yields every stored key exactly once, ascending, with as many entries as there are users |
| Database.FindFirst | controller/user.go:49 | `First` under a condition finds a user exactly when the condition selects a stored one, returns a stored, selected record, and returns the one with the smallest primary key |
| Database.IdsFromIncreasing | controller/user.go:15 | The ascending scan of the key range yields a strictly increasing key sequence |
| Database.IncreasingCard | controller/user.go:24-34 | A strictly increasing key list has no repeats, so it is as long as its set of keys is large |
| Token.GenerateToken | utils/token.go:15-32 | An empty secret gives an error and no token; otherwise the token is the signature of the user's claims, and issuing fails only if signing fails |
| Token.VerifyToken | utils/token.go:35-61 | An empty secret is an error; otherwise claims are returned exactly when the token minus one leading "Bearer " parses and the library calls it valid, and they are the parsed claims |
| Token.VerifyTokenStripsOnce | utils/token.go:43 | A token without the prefix is verified as it stands, and "Bearer " + t is verified as t, whatever t begins with |
| Token.IssuedTokenVerifies | utils/token.go:23-31 | For one clock reading `now`, a freshly issued token verifies throughout its 24 hours to claims with `user_id` = the user's id, `email` = the user's email, `issued_at` = now and `exp` = `issued_at` + 86400 |
| Token.IssuedTokenExpires | utils/token.go:26-27 | After its 24 hours an issued token either fails verification or verifies to claims whose `exp` is before the clock |
| Middleware.BearerToken | middleware/jwt.go:17-34 | An empty header is refused as missing, a header without the exact case-sensitive "Bearer " as malformed, and otherwise the header is "Bearer " followed by the returned token |
| Middleware.Admission | middleware/jwt.go:45-66 | A failed verification is "Invalid or expired token"; verified claims with a numeric `exp` strictly before now are "Token has expired"; a missing or non-numeric `exp` is admitted with the verified claims |
| Middleware.Gate | middleware/jwt.go:16-67 | The checks fire in order: missing header, bad scheme, revoked once-stripped token, failed verification, expiry. Every refusal is 401. A request is admitted exactly when all pass, with the verified claims attached |
| Middleware.GateOrderIgnoresVerifier | middleware/jwt.go:18-46 | A missing or malformed header is refused whatever the ledger, secret, clock or verifier. A revoked token is refused whatever the secret, clock or verifier |
| Middleware.RevokedTokenReadmitted | middleware/jwt.go:27-55 | As written, a revoked token t is refused under "Bearer t" but admitted under "Bearer Bearer t" whenever t itself verifies |
| Middleware.GateCorrected | middleware/jwt.go:36-66 | The corrected gate admits only when the header is "Bearer " + x, x is not revoked, x itself parses as valid to the attached claims, and those claims are not expired |
| Middleware.GateCorrectedHonoursLedger | middleware/jwt.go:36-43 | Under the corrected gate a revoked t is refused as revoked, and a doubled prefix no longer gets t verified |
| Middleware.GateCorrectedAgrees | middleware/jwt.go:27-52 | The corrected gate and the gate as written decide identically on every header whose once-stripped token does not again start with "Bearer " |
| Middleware.GateAdmitsIssuedToken | middleware/jwt.go:36-66 | The gate as written admits a fresh, unrevoked issued token during its lifetime with exactly the claims it was issued with |
| Authentication.Register | controller/authentication.go:15-68 | Unparsable body is 400. A taken email is 409, even with a bad password. A password under 6 bytes, empty included, is 400. The email itself is never checked. Success is 201 and adds exactly one user with the request's email and profile and the hash of the password, returned in full. Every refusal changes nothing |
| Authentication.Login | controller/authentication.go:71-111 | Unparsable body is 400. An unknown email is 404. A password the stored hash rejects is 401. A failed issue is 500. The answer is 200 exactly when the email is found, the password matches and a token is issued, and the body is then that token, signed over the found user's claims at now. Store and ledger never change |
| Authentication.GetUserInfo | controller/authentication.go:114-153 | 401 unless the claims hold a numeric `user_id` and a string `email`. 404 unless a stored user matches both. Otherwise 200 with that user's hash-free view. Nothing changes |
| Authentication.ProfileOfIssuedClaims | controller/authentication.go:114-153 | The claims issued for a stored user, as the gate admits them, get exactly that user's hash-free view from the profile handler, with nothing changed |
| Authentication.Logout | controller/authentication.go:166-199 | The gate's header checks repeat with 401. A token already in the ledger is 500 because of the unique index. Otherwise 200 with exactly that token added. The users table never changes |
| Authentication.RegisterThenLogin | controller/authentication.go:43-110 | After a successful registration with a password of at most 72 bytes, logging in with the same email and password succeeds with a token issued for the new account |
| UserAdmin.ViewsOfOrderedIds | controller/user.go:22-34 | Projecting the ordered keys lists every stored user's view once, ascending by id, each equal to the view of the stored record |
| UserAdmin.GetUsers | controller/user.go:12-41 | The listing is 200 with one hash-free view per stored user, in ascending id order and with the same count. Nothing changes |
| UserAdmin.GetDetailUser | controller/user.go:43-71 | 200 exactly when the id selects a stored user: an integer id selects the user under that key, no id selects every user, and other text selects what it selects as an SQL condition. The answer is the view of the selected user with the smallest id. Every failed lookup is 404. Nothing changes |
| UserAdmin.CreateThenDetail | controller/user.go:43-135 | A user created by the admin handler is then found under its new id, with the view the creation answered |
| UserAdmin.DeleteThenDetail | controller/user.go:43-71 | After a successful delete, the deleted id is 404 |
| UserAdmin.DetailAgreesWithListing | controller/user.go:12-71 | For every entry of the listing, the detail of its id is 200 with exactly that entry |
| UserAdmin.TextIdSelectsFirstUser | controller/user.go:49 | Id text that is not an integer literal and selects every row as SQL, such as "1=1", answers the first user of the listing, while update and delete refuse the same text with 500 |
| UserAdmin.CreateUser | controller/user.go:73-135 | Unparsable body is 400. An empty email, an empty password or one under 6 bytes is 400, before any duplicate check. A taken email is 409. Otherwise 201 adds exactly one user built from the request with the hashed password, answered with its hash-free view |
| UserAdmin.Updated | controller/user.go:170-181 | The updated record keeps its id and takes email and profile fields from the request even when empty. It keeps the old hash when the new password is empty, and otherwise hashes the new password with no length check |
| UserAdmin.UpdateUser | controller/user.go:137-207 | Unparsable body is 400, then a missing id is 400, id text that is not an integer literal is 500 and an unknown id is 404, each with the state unchanged. Otherwise 200 replaces only that record by the update, with the same keys, and answers with its view |
| UserAdmin.UpdateBreaksEmailUniqueness | controller/user.go:170-175 | An update may copy another user's email; afterwards the email lookup finds the one with the smaller id |
| UserAdmin.DeleteUser | controller/user.go:209-246 | A missing id is 400, id text that is not an integer literal is 500 and an unknown id is 404, each with nothing changed. Otherwise 200 removes exactly that record, leaves every other one as it was, and answers with the deleted record in full. The id sequence is never rewound |
| Router.Handle | router/router.go:20-29 | Each protected route runs the controller router.go registers for it: profile, logout, list, detail, create, update and delete, on the gate's claims and the route's id and body. The ledger changes only through logout. The id sequence never goes back and no retired key is filled again |
| Router.Serve | router/router.go:11-30 | Register and login run their handlers without the gate. Every other route runs the gate as written: a refusal is the response and no handler runs, and an admitted request runs its handler once on the gate's claims. The ledger only grows, and only through logout. The id sequence never goes back and no retired key is filled again |
| Router.Run | router/router.go:11-30 | Serving any sequence of requests keeps the tables well formed, never shrinks the ledger, never rewinds the id sequence and never fills a retired key. Without a logout the ledger stays as it was |
| Router.DeletedIdNeverReused | controller/user.go:233-234 | After a successful delete, no sequence of requests puts a record under the deleted id again |
| Router.RevocationIsPermanent | model/revoked-token.go:8-11 | A token t in the ledger stays there after any sequence of requests, and the gate keeps refusing "Bearer " + t as revoked (the doubled prefix of Findings is the way around it) |
| Scenarios.PasswordBoundary | controller/authentication.go:35-40 | Register accepts a 6-byte password and refuses a 5-byte one. Two 3-byte characters pass because the length is in bytes |
| Scenarios.ValidationOrderDiffers | controller/user.go:83-96 | For a taken email with a short password, Register answers 409 and CreateUser 400: their checks run in opposite orders |
| Scenarios.DuplicateRegistration | controller/authentication.go:26-32 | Registering "a@x.com" succeeds once. The second registration with that email is 409 and changes nothing |
| Scenarios.WrongSchemeRejected | middleware/jwt.go:27-34 | A profile request with header "Token abc" is 401 "Invalid Authorization format", runs no handler and changes nothing |
| Scenarios.LogoutRevokes | controller/authentication.go:186-198 | Logout with an admitted bearer token answers 200 and adds exactly that token to the ledger, changing nothing else |
| Scenarios.ProfileRefusesRevoked | middleware/jwt.go:37-43 | A profile request carrying a revoked token is 401 "Token has been revoked" and changes nothing |
| Scenarios.DoubledHeaderAfterLogout | middleware/jwt.go:27-46 | On the routed program, after logout with "Bearer t", a profile request with "Bearer t" is refused as revoked, but one with "Bearer Bearer t" passes the gate and is answered from the claims of t |
| Scenarios.LoginLogoutProfile | controller/authentication.go:166-198 | Register, log in, log out: the same token, though still verifying, is then refused with "Token has been revoked" |

## Left out

- Password hashing: bcrypt internals, salting and cost are not modelled. The hash is a deterministic function value; the only assumption is that a password of at most 72 bytes matches its own hash.
- Authentication.RegisterThenLogin: holds only for passwords of at most 72 bytes. Recent bcrypt refuses a longer password, and utils/password.go:7 discards that error and stores an empty hash. Register still answers 201, and every later login then fails with 401. Older bcrypt versions hash only the first 72 bytes instead. The bcrypt version is not pinned, so no lemma states which of the two happens.
- JWT signing and parsing: HMAC-SHA256 and the golang-jwt parser are function values constrained only by `Libraries.Sound`. Parsing takes the clock, because the library's claims validation inside `Parse` already rejects an expired `exp` and an `iat` or `nbf` after the clock. The assumed round trip covers only claims that pass those checks (`Libraries.TimelyAt`). So no lemma fixes which of the two 401 messages an expired token gets.
- Middleware.Admission: `exp` and `user_id` are float64 in Go; here they are integers and the clock is whole seconds. A fractional `exp` and sub-second clock readings are not represented.
- Token.GenerateToken: the source reads the clock twice (`issued_at` and `exp`); the model uses one reading `now` for both.
- Database failures: the users table is an in-memory map that never fails. The 500 answers for a failed insert (Register, CreateUser), save (UpdateUser), delete (DeleteUser) or listing query (GetUsers) are not modelled. The revoked-token table never fails either, which leaves out two paths. The gate treats any failed ledger query as "not revoked" (middleware/jwt.go:38 refuses only when the query succeeds), so a database error lets a revoked token through. Logout's insert (controller/authentication.go:188) answers 500 for any failure, not only for the unique-index violation. The unique-index violation is modelled. So is the query error of id text compared with the integer key.
- Concurrency: the model is sequential. The race between the email check and the insert is not modelled; the users table has no unique constraint on email anyway.
- Route parameters: `:id` is abstracted as `Http.IdParam` (absent, an integer literal, or other text). Text that gorm's `strconv.Atoi` and PostgreSQL's integer input read differently, such as " 1", is not represented. The unsigned 64-bit range of ids and sequence exhaustion are not modelled.
- UserAdmin.GetDetailUser: what an SQL condition selects is a function value with no assumed properties, one row at a time. A condition that fails to run selects nothing, which gives the same 404. Conditions whose effect is more than selecting rows, such as subqueries with side effects or timing, are not represented.
- HTTP plumbing: Fiber's context, `BodyParser` (parses or not), the JSON envelope with its success/error flags, the `error` detail strings, and Go's rendering of an empty user list as `null` are not modelled.
- The `validate` struct tags are not enforced anywhere in the source and are not modelled.
- `GetUserInfo` panics when no claims are attached; that cannot happen behind the gate and is not modelled.
- Process setup is not modelled: environment lookup of `JWT_SECRET`, database connection, migration, main.go and the commented-out password-reset routes.

## Findings

| source | as written | input that shows it | evidently intended | confidence | as-written member | corrected member |
|---|---|---|---|---|---|---|
| middleware/jwt.go:38-46 | The ledger is consulted with the header minus one "Bearer ". `VerifyToken` (utils/token.go:43) then strips a second "Bearer " before verifying | After logout with header "Bearer T", which revokes "T", a request with header "Bearer Bearer T" looks up "Bearer T" (not revoked) and verifies "T" | A logged-out token is refused however the header is written | high; not executed | Middleware.RevokedTokenReadmitted | Middleware.GateCorrected |
