# Request-decision layer of the Fiber/GORM user service

This project models the decision logic of the HTTP handlers of a small CRUD
service: login and logout under `/auth`, and list, detail, create, update and
delete under `/user`. Each handler is an early-return ladder. It authenticates
the caller, checks the path id, parses and validates the body, calls the
repository, and maps each outcome to a status code and a JSON body.

The collaborators are the authorization-header check, the UUID check, Fiber's
body parser, the validator library, the repository, password hashing and token
generation. They are not modelled. A handler calls each of them at most once,
so a request is a record holding one outcome per collaborator
(`UserRoutes.ListRequest`, `UserRoutes.UpdateRequest`, `AuthRoutes.LoginRequest`,
…). A handler is a function from that record to an `Outcome`. The outcome holds
the `Response` (status and body) and the trace of collaborator calls the handler
made, in order and with their arguments. Properties such as "the repository is
not called" or "the lookup uses the path id" are stated on that trace.

A Go `error` is modelled as `Error(message, isRecordNotFound)`. These are the
two things the handlers read from it: `err.Error()` and
`errors.Is(err, gorm.ErrRecordNotFound)`.

Modules:
- `Schemas` (schemas.dfy): request and response types from schemas/user.go,
  plus the login, logout and 422 types that the handlers use. No response type
  has a password field.
- `Collaborators` (collaborators.dfy): the user row, errors, the validator's
  report, the call trace, and the predicates `FollowsPlan` (the trace is a
  non-empty prefix of the handler's stage order) and `ReadOnly` (no create,
  update or delete call).
- `Validators` (validators.dfy): `ValidateSchemas` as an imperative method with
  its loop, proved against the function `SchemaVerdict`, which the handlers use.
- `Responses` (responses.dfy): bodies, responses, the shared early-return
  responses, and the status policy `PolicyStatus`. Every handler is proved
  `Consistent` with this policy: 401 for token failure, 400 for a malformed body
  or bad credentials, 404 for not found, 422 for a validation failure, 500 for
  an unexpected error, 200, 201 or 204 for success.
- `UserRoutes` (user_routes.dfy) and `AuthRoutes` (auth_routes.dfy): the seven
  handlers and the lemmas about them.

Where the endpoint documentation and the code disagree, the model follows the
code:
- The Swagger annotations on the handlers list responses the code does not
  give, and omit ones it does. Create is annotated as succeeding with 200, but
  the code returns 201. Logout is annotated as failing with 400, but the code
  returns 401. List and detail are annotated with a 400 that the code never
  returns. The annotations of detail, create, update and delete omit the 401
  they all return (routes/user.go:101-106, 153-158, 214-221, 297-301), and the
  list annotation omits its 422 (routes/user.go:21-27).
- The `/user` route group is commented out in routes/routes.go:18. The user
  handlers are therefore modelled as functions, and nothing here says they can
  be reached over HTTP.

## Model

| member | source | states |
|---|---|---|
| Validators.ValidateSchemas | core/validators.go:12-24 | valid iff the validator reported no error, and then no messages; otherwise exactly one {field: message} map per reported failure, in the validator's order, with none dropped; the result equals `SchemaVerdict` |
| Validators.FieldMessages | core/validators.go:16-18 | one map per failure, and the i-th map has exactly the key of failure i, mapped to its message |
| Validators.FieldMessagesSnoc | core/validators.go:16-18 | appending one more failure appends exactly its map: collecting is a plain map over the list, so the loop never stops early |
| UserRoutes.PageErrors | routes/user.go:42-56 | an entry keyed "page" iff page <= 0 and one keyed "page_size" iff page_size <= 0; "page" comes first; each entry is a single-key map with the source's message; the length is the number of bad parameters |
| UserRoutes.DetailResults | routes/user.go:76-84 | one result per user in the same order, with id, username, email and is_active copied and is_superuser false |
| UserRoutes.GetAllUserRoute | routes/user.go:29-93 | the status follows the policy and is one of 200/401/422/500; 401 iff authorization failed, and a failed authorization gives exactly 401 "Invalid/Expired token" with no other call; the trace follows [authorize, list]; nothing is mutated |
| UserRoutes.ListQueryDefaults | routes/user.go:39-40 | a missing page is 1 and a missing page_size is 10, both in the repository call and in the 200 response |
| UserRoutes.ListRepositoryArguments | routes/user.go:39-69 | with valid paging the repository is called with the requested page and page_size; it gets an absent search iff the query search is absent or ""; any other search is passed on unchanged |
| UserRoutes.ListRejectsNonPositive | routes/user.go:42-61 | page <= 0 or page_size <= 0 gives 422 with `PageErrors` (1 or 2 entries), and there is no repository call |
| UserRoutes.ListResultMapping | routes/user.go:67-92 | a repository error gives 500 with its text; success gives 200, echoing page and page_size, taking counts and page_count from the repository, with one result per user in order and is_superuser false |
| UserRoutes.ListHidesPasswords | routes/user.go:76-92 | the listed users' password hashes never change the response |
| UserRoutes.GetDetailUserRoute | routes/user.go:108-144 | the status follows the policy and is one of 200/401/404/500; 401 iff authorization failed, and a failed authorization gives exactly 401 "Invalid/Expired token" with no other call; the trace follows [authorize, uuid, lookup]; nothing is mutated |
| UserRoutes.DetailIdAndLookup | routes/user.go:117-143 | a bad UUID gives 404 "user not found" with no lookup; the lookup uses the path id; not-found gives 404, any other error 500 with its text, and a found user 200 with all five public fields |
| UserRoutes.DetailHidesPassword | routes/user.go:137-143 | the stored password hash never changes the detail response |
| UserRoutes.CreateUserRoute | routes/user.go:160-205 | the status follows the policy and is one of 201/400/401/422/500; 401 iff authorization failed, and a failed authorization gives exactly 401 "Invalid/Expired token" with no other call; the trace follows [authorize, parse, validate the parsed body, create]; the repository is written iff authorization, parsing and validation all passed |
| UserRoutes.CreateLadder | routes/user.go:169-204 | a parse failure gives 400 with the parser's text; a validation failure gives 422 listing every failure as {field: message}; the user is created from the request's fields; a repository error gives 500; success gives 201 echoing the created user's id, username, email and flags |
| UserRoutes.CreateHidesPassword | routes/user.go:198-204 | the created user's password hash never changes the response |
| UserRoutes.UpdateUserRoute | routes/user.go:223-290 | the status follows the policy and is one of 200/400/401/404/422/500; 401 iff authorization failed, and a failed authorization gives exactly 401 "Invalid/Expired token" with no other call; the trace follows [authorize, uuid, parse, validate the parsed body, lookup, update]; the repository is written iff every check and the lookup succeeded |
| UserRoutes.UpdateCheckOrder | routes/user.go:232-250 | after authorization: a bad UUID gives 404; then a parse failure gives 400; then a validation failure gives 422; each stops before the lookup |
| UserRoutes.UpdateBodyBeforeExistence | routes/user.go:240-264 | a malformed or invalid body on a well-formed but nonexistent id gives 400 or 422, never 404, and no lookup is made |
| UserRoutes.UpdateLookupAndWrite | routes/user.go:252-289 | the path id is looked up (not-found 404, other 500); the found user is updated with the request's fields; an update error gives 500; success gives 200 echoing the updated user |
| UserRoutes.UpdateHidesPassword | routes/user.go:283-289 | neither the existing nor the updated password hash changes the response |
| UserRoutes.DeleteUserRoute | routes/user.go:303-340 | the status follows the policy and is one of 204/401/404/500; 401 iff authorization failed, and a failed authorization gives exactly 401 "Invalid/Expired token" with no other call; the trace follows [authorize, uuid, lookup, delete]; the repository is written iff the token, the id and the lookup were all fine |
| UserRoutes.DeleteLadder | routes/user.go:312-339 | a bad UUID gives 404 with no lookup; a lookup error gives 404 (not found) or 500; the found user is deleted; a delete error gives 500; success gives 204 with a null body |
| UserRoutes.DetailAndDeleteAgreeOnFailures | routes/user.go:314-331 | for the same token, id and failed lookup, detail and delete give the same outcome, so a soft-deleted (not-found) user is 404 on both |
| AuthRoutes.AuthLoginRoute | routes/auth.go:22-58 | the status follows the policy and is one of 200/400/500; 200 iff the form parses, the user exists, the password matches and a token is issued; the trace follows [parse, username, password, token]; nothing is mutated |
| AuthRoutes.LoginMalformedForm | routes/auth.go:24-29 | an unparsable form gives 400 with the parser's text, and only the parser is called |
| AuthRoutes.InvalidCredentialsIndistinguishable | routes/auth.go:31-44 | an unknown username and a wrong password give identical responses, 400 "invalid credentials" |
| AuthRoutes.LoginIssuesToken | routes/auth.go:46-57 | with matching credentials: the form's username is looked up, the form's password is checked against that user's hash and a token is requested for that user; a token error gives 500, otherwise 200 with the token and type "Bearer" |
| AuthRoutes.AuthLogoutRoute | routes/auth.go:71-84 | the status follows the policy and is 200 or 401 (401 iff authorization failed); the only call is the authorization check, so nothing is stored or revoked |
| AuthRoutes.LogoutEchoesIdentity | routes/auth.go:73-83 | a rejected token gives 401 "Invalid/Expired token"; otherwise 200 echoing the authenticated user's email and username |

## Left out

- Authorization and credentials (core.GetUserFromAuthorizationHeader, core.CheckPasswordHash, core.GenerateJWTTokenFromUser, core.IsValidUUID): their source is not part of this model. Their outcomes are inputs, and JWT, bcrypt and UUID semantics are not asserted.
- repository.*: not part of this model. Lookups, listing, create, update and soft delete are inputs. The `ceil(count / page_size)` page count and soft-delete visibility live there and are not asserted.
- The validator library: which fields `validate:"required"` rejects, including its treatment of `false` booleans, is library behaviour. Its failure list is an input (`ValidatorReport`).
- The panic when `Validate.Struct` returns an error that is not `ValidationErrors` (the type assertion in core/validators.go:16): this depends on the library and is not modelled.
- Fiber framework I/O: `BodyParser`, `QueryInt` (including how non-numeric input falls back to the default), `Params` and JSON serialisation. A query value is modelled as present or absent, and the parser's outcome is an input.
- The difference between a nil and an empty message slice in JSON (`null` versus `[]`): both are the empty sequence here.
- `time.Now()` timestamps passed to repository.CreateUser, and the global database handle. Neither influences any decision.
- Route registration (routes/routes.go) and process bootstrap (tasks/*): environment loading, database connection, CORS, listening, migrations and superuser seeding are I/O.
- Timing: the login trace shows a password check only when the username exists. The model states that the two failure responses are identical, but says nothing about how long each takes.
