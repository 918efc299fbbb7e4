/** Request and response shapes of the user and auth endpoints (schemas/user.go),
    plus the few response types the handlers use from the rest of the schemas
    package. None of the user response types has a password field. */
module Schemas {

  datatype Option<+T> = None | Some(value: T) {
    /** The value, or `default` when absent. */
    function GetOr(default: T): T {
      match this
      case Some(v) => v
      case None => default
    }
  }

  /** One validation failure in the JSON body: a single-key map {field: message}. */
  type FieldError = map<string, string>

  datatype UserDetailResponse = UserDetailResponse(
    id: string, username: string, email: string, isActive: bool, isSuperuser: bool)

  datatype UserPaginateResponse = UserPaginateResponse(
    counts: int, pageCount: int, pageSize: int, page: int, results: seq<UserDetailResponse>)

  datatype UserCreateRequest = UserCreateRequest(
    username: string, email: string, password: string, isActive: bool, isSuperuser: bool)

  datatype UserCreateResponse = UserCreateResponse(
    id: string, username: string, email: string, isActive: bool, isSuperuser: bool)

  /** `password` is optional: None when the request carries no password. */
  datatype UserUpdateRequest = UserUpdateRequest(
    username: string, email: string, password: Option<string>, isActive: bool, isSuperuser: bool)

  datatype UserUpdateResponse = UserUpdateResponse(
    id: string, username: string, email: string, isActive: bool, isSuperuser: bool)

  datatype LoginFormRequest = LoginFormRequest(username: string, password: string)

  datatype LoginResponse = LoginResponse(accessToken: string, tokenType: string)

  datatype LogoutResponse = LogoutResponse(email: string, username: string)

  /** The 422 body: the ordered list of field errors. */
  datatype UnprocessableEntityResponse = UnprocessableEntityResponse(message: seq<FieldError>)
}
