/** routes/auth.go: login and logout. Login checks the form, then the user, then
    the password, then issues a token; logout only authenticates and echoes the
    caller's identity. */
module AuthRoutes {
  import opened Schemas
  import opened Collaborators
  import opened Responses

  const LoginPlan: seq<Stage> := [ParseStage, UsernameStage, PasswordStage, TokenStage]
  const LogoutPlan: seq<Stage> := [AuthStage]

  /** `form` is what c.BodyParser yields, `account` what
      repository.GetUserByUsername would return for the form's username,
      `passwordMatches` what core.CheckPasswordHash would answer, and `token`
      what core.GenerateJWTTokenFromUser would return. */
  datatype LoginRequest = LoginRequest(
    form: Result<LoginFormRequest>, account: Result<User>, passwordMatches: bool, token: Result<string>)

  function AuthLoginRoute(req: LoginRequest): (o: Outcome)
    ensures Consistent(o.response)
    ensures o.response.status in {200, 400, 500}
    ensures FollowsPlan(o.calls, LoginPlan) && ReadOnly(o.calls)
    ensures o.response.status == 200 <==>
      req.form.Ok? && req.account.Ok? && req.passwordMatches && req.token.Ok?
  {
    match req.form
    case Err(e) => Outcome(MalformedBody(e), [ParseBody])
    case Ok(f) =>
      var looked := [ParseBody, GetUserByUsername(f.username)];
      match req.account
      case Err(_) => Outcome(InvalidCredentials(), looked)
      case Ok(user) =>
        var checked := looked + [CheckPasswordHash(f.password, user.password)];
        if !req.passwordMatches then Outcome(InvalidCredentials(), checked)
        else
          var calls := checked + [GenerateToken(user)];
          match req.token
          case Err(e) => Outcome(ServerError(e), calls)
          case Ok(t) => Outcome(Response(200, LoggedIn(LoginResponse(t, BearerTokenType))), calls)
  }

  /** A form that cannot be parsed is 400 with the parser's text, before any lookup. */
  lemma LoginMalformedForm(req: LoginRequest)
    requires req.form.Err?
    ensures AuthLoginRoute(req).response == Response(400, BadRequest(req.form.error.message))
    ensures AuthLoginRoute(req).calls == [ParseBody]
  {
  }

  /** An unknown username and a wrong password give the same response, 400
      "invalid credentials": the caller cannot tell which one failed. */
  lemma InvalidCredentialsIndistinguishable(unknown: LoginRequest, wrong: LoginRequest)
    requires unknown.form.Ok? && unknown.account.Err?
    requires wrong.form.Ok? && wrong.account.Ok? && !wrong.passwordMatches
    ensures AuthLoginRoute(unknown).response == AuthLoginRoute(wrong).response
    ensures AuthLoginRoute(unknown).response == Response(400, BadRequest("invalid credentials"))
  {
  }

  /** With matching credentials the form's username is looked up and the
      form's password checked against that user's hash; a token error is 500,
      otherwise 200 with the token and type "Bearer". */
  lemma LoginIssuesToken(req: LoginRequest)
    requires req.form.Ok? && req.account.Ok? && req.passwordMatches
    ensures var o := AuthLoginRoute(req);
      o.calls == [ParseBody, GetUserByUsername(req.form.value.username),
                  CheckPasswordHash(req.form.value.password, req.account.value.password),
                  GenerateToken(req.account.value)] &&
      (req.token.Err? ==> o.response == Response(500, InternalServerError(req.token.error.message))) &&
      (req.token.Ok? ==> o.response == Response(200, LoggedIn(LoginResponse(req.token.value, "Bearer"))))
  {
  }

  /** `auth` is what core.GetUserFromAuthorizationHeader would return. */
  datatype LogoutRequest = LogoutRequest(auth: Result<User>)

  /** Logout authenticates and answers; it calls nothing else, so nothing
      is stored or revoked and the token stays usable until it expires. */
  function AuthLogoutRoute(req: LogoutRequest): (o: Outcome)
    ensures Consistent(o.response)
    ensures o.response.status in {200, 401}
    ensures o.calls == [Authorize] && ReadOnly(o.calls) && FollowsPlan(o.calls, LogoutPlan)
    ensures o.response.status == 401 <==> req.auth.Err?
  {
    match req.auth
    case Err(_) => Outcome(InvalidToken(), [Authorize])
    case Ok(user) => Outcome(Response(200, LoggedOut(LogoutResponse(user.email, user.username))), [Authorize])
  }

  /** A rejected token is 401 "Invalid/Expired token"; otherwise 200 echoing the
      authenticated user's email and username. */
  lemma LogoutEchoesIdentity(req: LogoutRequest)
    ensures req.auth.Err? ==> AuthLogoutRoute(req).response == Response(401, Unauthorized("Invalid/Expired token"))
    ensures req.auth.Ok? ==> (AuthLogoutRoute(req).response ==
      Response(200, LoggedOut(LogoutResponse(req.auth.value.email, req.auth.value.username))))
  {
  }
}
