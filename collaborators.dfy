/** What the handlers see of the code they call but which is not modelled here:
    the authorization-header check, the UUID check, the body parser, the
    validator, the repository, password hashing and token generation. Each
    handler calls each of them at most once, so a request carries one outcome
    per collaborator, and the handler reports which of them it consulted, in
    order and with the arguments it passed, as a trace of calls. */
module Collaborators {
  import opened Schemas

  /** The user row (models.User) as far as the handlers read it; timestamps are left out. */
  datatype User = User(
    id: string, username: string, email: string, password: string,
    isActive: bool, isSuperuser: bool)

  /** A Go `error` as the handlers observe it: its text (`err.Error()`) and whether
      `errors.Is(err, gorm.ErrRecordNotFound)` holds. */
  datatype Error = Error(message: string, isRecordNotFound: bool)

  /** A Go `(value, error)` pair: a non-nil error, or the value. */
  datatype Result<+T> = Ok(value: T) | Err(error: Error)

  /** What repository.GetPaginatedUser returns besides its error. */
  datatype Page = Page(users: seq<User>, counts: int, pageCount: int)

  /** One failure of the validator library (`err.Field()`, `err.Error()`). */
  datatype FieldFailure = FieldFailure(field: string, message: string)

  /** What `Validate.Struct` reports: nil, or its list of failures in its own order. */
  datatype ValidatorReport = NoError | Failed(failures: seq<FieldFailure>)

  /** The stages a handler goes through, independent of arguments. */
  datatype Stage =
    | AuthStage | UuidStage | ParseStage | ValidateStage
    | ListStage | LookupStage | UsernameStage | PasswordStage | TokenStage
    | CreateStage | UpdateStage | DeleteStage

  /** One call into a collaborator, with the arguments the handler passed. */
  datatype Call =
    | Authorize                                   // core.GetUserFromAuthorizationHeader
    | CheckUuid(id: string)                       // core.IsValidUUID
    | ParseBody                                   // c.BodyParser
    | ValidateCreate(newUser: UserCreateRequest)   // core.ValidateSchemas on the parsed create body
    | ValidateUpdate(changes: UserUpdateRequest)   // core.ValidateSchemas on the parsed update body
    | GetPaginatedUser(page: int, pageSize: int, search: Option<string>)
    | GetUserById(userId: string)
    | GetUserByUsername(username: string)
    | CheckPasswordHash(plain: string, hash: string)
    | GenerateToken(user: User)
    | CreateUser(username: string, email: string, plainPassword: string, isActive: bool, isSuperuser: bool)
    | UpdateUser(existing: User, email: string, username: string, newPassword: Option<string>,
                 isActive: bool, isSuperuser: bool)
    | DeleteUser(user: User)
  {
    function Stage(): Stage {
      match this
      case Authorize => AuthStage
      case CheckUuid(_) => UuidStage
      case ParseBody => ParseStage
      case ValidateCreate(_) => ValidateStage
      case ValidateUpdate(_) => ValidateStage
      case GetPaginatedUser(_, _, _) => ListStage
      case GetUserById(_) => LookupStage
      case GetUserByUsername(_) => UsernameStage
      case CheckPasswordHash(_, _) => PasswordStage
      case GenerateToken(_) => TokenStage
      case CreateUser(_, _, _, _, _) => CreateStage
      case UpdateUser(_, _, _, _, _, _) => UpdateStage
      case DeleteUser(_) => DeleteStage
    }

    /** The calls that change stored data. */
    predicate Mutates() {
      CreateUser? || UpdateUser? || DeleteUser?
    }
  }

  /** A trace follows a handler's plan when it is a non-empty prefix of it:
      stages run in the plan's order, none is skipped or repeated, and a handler
      that stops early consults nothing after the stage that stopped it. */
  predicate FollowsPlan(calls: seq<Call>, plan: seq<Stage>) {
    0 < |calls| <= |plan| && forall i :: 0 <= i < |calls| ==> calls[i].Stage() == plan[i]
  }

  /** A trace that changes no stored data. */
  predicate ReadOnly(calls: seq<Call>) {
    forall i :: 0 <= i < |calls| ==> !calls[i].Mutates()
  }

  /** The user with the password blanked out; two users with equal stripped
      forms differ at most in their password hash. */
  function StripPassword(u: User): User {
    u.(password := "")
  }

  predicate SameUpToPassword(a: Result<User>, b: Result<User>) {
    match a
    case Err(e) => b == Err(e)
    case Ok(u) => b.Ok? && StripPassword(u) == StripPassword(b.value)
  }
}
