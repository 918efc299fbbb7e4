/** The responses the handlers emit: a status code and a JSON body, and the
    status policy tying each kind of body to its code. */
module Responses {
  import opened Schemas
  import opened Collaborators

  const InvalidTokenMessage := "Invalid/Expired token"
  const UserNotFoundMessage := "user not found"
  const InvalidCredentialsMessage := "invalid credentials"
  const BearerTokenType := "Bearer"

  datatype Body =
    | Unauthorized(message: string)            // schemas.UnauthorizedResponse
    | BadRequest(message: string)              // schemas.BadRequestResponse
    | NotFound(message: string)                // schemas.NotFoundResponse
    | InternalServerError(error: string)       // schemas.InternalServerErrorResponse
    | Unprocessable(entity: UnprocessableEntityResponse)
    | Paginated(page: UserPaginateResponse)
    | Detail(detail: UserDetailResponse)
    | Created(created: UserCreateResponse)
    | Updated(updated: UserUpdateResponse)
    | LoggedIn(login: LoginResponse)
    | LoggedOut(logout: LogoutResponse)
    | Null                                     // c.JSON(nil)

  datatype Response = Response(status: int, body: Body)

  /** What one handler invocation produces: the response and the calls it made. */
  datatype Outcome = Outcome(response: Response, calls: seq<Call>)

  /** The status policy: 401 for a rejected token, 400 for a malformed body or bad
      credentials, 404 for an absent resource, 422 for a validation failure, 500
      for an unexpected error, 200 for a read or update, 201 for a create and 204
      for a delete. */
  function PolicyStatus(b: Body): int {
    match b
    case Unauthorized(_) => 401
    case BadRequest(_) => 400
    case NotFound(_) => 404
    case InternalServerError(_) => 500
    case Unprocessable(_) => 422
    case Paginated(_) => 200
    case Detail(_) => 200
    case Created(_) => 201
    case Updated(_) => 200
    case LoggedIn(_) => 200
    case LoggedOut(_) => 200
    case Null => 204
  }

  /** A response whose code is the one the policy gives its body. */
  predicate Consistent(r: Response) {
    r.status == PolicyStatus(r.body)
  }

  // The shared responses of the handlers' early returns.

  function InvalidToken(): Response {
    Response(401, Unauthorized(InvalidTokenMessage))
  }

  function UserNotFound(): Response {
    Response(404, NotFound(UserNotFoundMessage))
  }

  function ServerError(e: Error): Response {
    Response(500, InternalServerError(e.message))
  }

  function MalformedBody(e: Error): Response {
    Response(400, BadRequest(e.message))
  }

  function InvalidCredentials(): Response {
    Response(400, BadRequest(InvalidCredentialsMessage))
  }

  function ValidationFailed(entity: UnprocessableEntityResponse): Response {
    Response(422, Unprocessable(entity))
  }

  /** The 404/500 split on a failed lookup by id. */
  function LookupFailed(e: Error): Response {
    if e.isRecordNotFound then UserNotFound() else ServerError(e)
  }
}
