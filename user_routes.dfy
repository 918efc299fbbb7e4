/** routes/user.go: the five /user handlers as early-return ladders. Each is a
    function from the outcomes of the collaborators it may call to the response
    it sends and the calls it made. Every one authorizes first and answers 401
    before consulting anything else. */
module UserRoutes {
  import opened Schemas
  import opened Collaborators
  import opened Responses
  import opened Validators

  const DefaultPage := 1
  const DefaultPageSize := 10
  const InvalidPageMessage := "invalid page, page should positive integer"
  const InvalidPageSizeMessage := "invalid page_size, page_size should positive integer"

  const ListPlan: seq<Stage> := [AuthStage, ListStage]
  const DetailPlan: seq<Stage> := [AuthStage, UuidStage, LookupStage]
  const CreatePlan: seq<Stage> := [AuthStage, ParseStage, ValidateStage, CreateStage]
  const UpdatePlan: seq<Stage> := [AuthStage, UuidStage, ParseStage, ValidateStage, LookupStage, UpdateStage]
  const DeletePlan: seq<Stage> := [AuthStage, UuidStage, LookupStage, DeleteStage]

  // ---------------------------------------------------------------------------
  // GET /user/

  /** `page`, `page_size` and `search` are the query values, None when absent
      (Fiber's QueryInt falls back to the default then); `listing` is what
      repository.GetPaginatedUser would return. */
  datatype ListRequest = ListRequest(
    auth: Result<User>, page: Option<int>, pageSize: Option<int>, search: Option<string>,
    listing: Result<Page>)
  {
    function EffectivePage(): int { page.GetOr(DefaultPage) }
    function EffectivePageSize(): int { pageSize.GetOr(DefaultPageSize) }
  }

  /** The 422 body of the list handler: an entry keyed "page" exactly when the
      page is not positive, one keyed "page_size" exactly when the page size is
      not positive, "page" first, each a single-key map. */
  function PageErrors(page: int, pageSize: int): (errs: seq<FieldError>)
    ensures |errs| == (if page <= 0 then 1 else 0) + (if pageSize <= 0 then 1 else 0)
    ensures forall i :: 0 <= i < |errs| ==> |errs[i].Keys| == 1
    ensures (exists i :: 0 <= i < |errs| && "page" in errs[i]) <==> page <= 0
    ensures (exists i :: 0 <= i < |errs| && "page_size" in errs[i]) <==> pageSize <= 0
    ensures page <= 0 ==> errs[0] == map["page" := InvalidPageMessage]
    ensures pageSize <= 0 ==> errs[|errs| - 1] == map["page_size" := InvalidPageSizeMessage]
  {
    var pageEntry: FieldError := map["page" := InvalidPageMessage];
    var pageSizeEntry: FieldError := map["page_size" := InvalidPageSizeMessage];
    assert pageEntry.Keys == {"page"} && pageSizeEntry.Keys == {"page_size"};
    var errs := (if page <= 0 then [pageEntry] else []) + (if pageSize <= 0 then [pageSizeEntry] else []);
    assert page <= 0 ==> "page" in errs[0];
    assert pageSize <= 0 ==> "page_size" in errs[|errs| - 1];
    errs
  }

  /** One list entry per user, in the repository's order, carrying the id,
      username, email and active flag; the superuser flag is left false. */
  function DetailResults(users: seq<User>): (rs: seq<UserDetailResponse>)
    ensures |rs| == |users|
    ensures forall i :: 0 <= i < |users| ==>
      rs[i].id == users[i].id && rs[i].username == users[i].username &&
      rs[i].email == users[i].email && rs[i].isActive == users[i].isActive && !rs[i].isSuperuser
  {
    if users == [] then []
    else
      var u := users[0];
      [UserDetailResponse(u.id, u.username, u.email, u.isActive, false)] + DetailResults(users[1..])
  }

  function GetAllUserRoute(req: ListRequest): (o: Outcome)
    ensures Consistent(o.response)
    ensures o.response.status in {200, 401, 422, 500}
    ensures FollowsPlan(o.calls, ListPlan) && ReadOnly(o.calls)
    ensures o.response.status == 401 <==> req.auth.Err?
    ensures req.auth.Err? ==> o == Outcome(Response(401, Unauthorized("Invalid/Expired token")), [Authorize])
  {
    if req.auth.Err? then Outcome(InvalidToken(), [Authorize])
    else
      var page := req.EffectivePage();
      var pageSize := req.EffectivePageSize();
      var search := req.search.GetOr("");
      if page <= 0 || pageSize <= 0 then
        Outcome(ValidationFailed(UnprocessableEntityResponse(PageErrors(page, pageSize))), [Authorize])
      else
        var call := GetPaginatedUser(page, pageSize, if search != "" then Some(search) else None);
        match req.listing
        case Err(e) => Outcome(ServerError(e), [Authorize, call])
        case Ok(p) =>
          Outcome(Response(200, Paginated(UserPaginateResponse(
            p.counts, p.pageCount, pageSize, page, DetailResults(p.users)))), [Authorize, call])
  }

  /** A missing page is 1 and a missing page size is 10, both as passed to the
      repository and as echoed in a successful response. */
  lemma ListQueryDefaults(req: ListRequest)
    requires req.auth.Ok? && req.page.None? && req.pageSize.None?
    ensures var o := GetAllUserRoute(req);
      |o.calls| == 2 && o.calls[1].GetPaginatedUser? &&
      o.calls[1].page == 1 && o.calls[1].pageSize == 10 &&
      (req.listing.Ok? ==> (o.response.body.Paginated? &&
        o.response.body.page.page == 1 && o.response.body.page.pageSize == 10))
  {
  }

  /** With valid paging the repository is asked for the requested page and page
      size; an absent or empty search reaches it as absent, never as "", and any
      other search string is passed on unchanged. */
  lemma ListRepositoryArguments(req: ListRequest)
    requires req.auth.Ok? && req.EffectivePage() > 0 && req.EffectivePageSize() > 0
    ensures var o := GetAllUserRoute(req);
      |o.calls| == 2 && o.calls[1].GetPaginatedUser? &&
      o.calls[1].page == req.EffectivePage() && o.calls[1].pageSize == req.EffectivePageSize() &&
      (o.calls[1].search.None? <==> (req.search.None? || req.search == Some(""))) &&
      (req.search.Some? && req.search.value != "" ==> o.calls[1].search == req.search)
  {
  }

  /** A non-positive page or page size is answered with 422 before the
      repository is called, with one or two entries. */
  lemma ListRejectsNonPositive(req: ListRequest)
    requires req.auth.Ok? && (req.EffectivePage() <= 0 || req.EffectivePageSize() <= 0)
    ensures var o := GetAllUserRoute(req);
      o.calls == [Authorize] && o.response.status == 422 &&
      o.response.body == Unprocessable(UnprocessableEntityResponse(
        PageErrors(req.EffectivePage(), req.EffectivePageSize()))) &&
      1 <= |o.response.body.entity.message| <= 2
  {
  }

  /** With valid paging, a repository error is a 500 carrying its text, and a
      successful listing is a 200 that echoes page and page size, takes the
      counts from the repository and has one entry per returned user, in order. */
  lemma ListResultMapping(req: ListRequest)
    requires req.auth.Ok? && req.EffectivePage() > 0 && req.EffectivePageSize() > 0
    ensures var o := GetAllUserRoute(req);
      (req.listing.Err? ==> o.response == Response(500, InternalServerError(req.listing.error.message))) &&
      (req.listing.Ok? ==>
        var p, r := req.listing.value, o.response.body.page;
        o.response.status == 200 && o.response.body.Paginated? &&
        r.page == req.EffectivePage() && r.pageSize == req.EffectivePageSize() &&
        r.counts == p.counts && r.pageCount == p.pageCount &&
        |r.results| == |p.users| &&
        forall i :: 0 <= i < |p.users| ==>
          r.results[i].id == p.users[i].id && r.results[i].username == p.users[i].username &&
          r.results[i].email == p.users[i].email && r.results[i].isActive == p.users[i].isActive &&
          !r.results[i].isSuperuser)
  {
  }

  /** Listed users' password hashes never influence the response. */
  lemma ListHidesPasswords(a: ListRequest, b: ListRequest)
    requires a.auth.Ok? == b.auth.Ok? && a.page == b.page && a.pageSize == b.pageSize && a.search == b.search
    requires a.listing.Err? ==> b.listing == a.listing
    requires a.listing.Ok? ==> (b.listing.Ok? &&
      var p, q := a.listing.value, b.listing.value;
      p.counts == q.counts && p.pageCount == q.pageCount && |p.users| == |q.users| &&
      forall i :: 0 <= i < |p.users| ==> StripPassword(p.users[i]) == StripPassword(q.users[i]))
    ensures GetAllUserRoute(a).response == GetAllUserRoute(b).response
  {

  }

  // ---------------------------------------------------------------------------
  // GET /user/{userId}

  /** `uuidValid` is core.IsValidUUID of the path id; `lookup` is what
      repository.GetUserById would return. */
  datatype DetailRequest = DetailRequest(
    auth: Result<User>, userId: string, uuidValid: bool, lookup: Result<User>)

  function GetDetailUserRoute(req: DetailRequest): (o: Outcome)
    ensures Consistent(o.response)
    ensures o.response.status in {200, 401, 404, 500}
    ensures FollowsPlan(o.calls, DetailPlan) && ReadOnly(o.calls)
    ensures o.response.status == 401 <==> req.auth.Err?
    ensures req.auth.Err? ==> o == Outcome(Response(401, Unauthorized("Invalid/Expired token")), [Authorize])
  {
    if req.auth.Err? then Outcome(InvalidToken(), [Authorize])
    else if !req.uuidValid then Outcome(UserNotFound(), [Authorize, CheckUuid(req.userId)])
    else
      var calls := [Authorize, CheckUuid(req.userId), GetUserById(req.userId)];
      match req.lookup
      case Err(e) => Outcome(LookupFailed(e), calls)
      case Ok(u) =>
        Outcome(Response(200, Detail(UserDetailResponse(u.id, u.username, u.email, u.isActive, u.isSuperuser))), calls)
  }

  /** After authorization: an id failing the UUID check is 404 without a
      lookup; otherwise the path id is looked up, not-found is 404, any other
      error 500, and a found user is a 200 with all five public fields. */
  lemma DetailIdAndLookup(req: DetailRequest)
    requires req.auth.Ok?
    ensures var o := GetDetailUserRoute(req);
      (!req.uuidValid ==> (o.response == Response(404, NotFound("user not found")) &&
        o.calls == [Authorize, CheckUuid(req.userId)])) &&
      (req.uuidValid ==> (o.calls[|o.calls| - 1] == GetUserById(req.userId) &&
        (req.lookup.Err? && req.lookup.error.isRecordNotFound ==>
          o.response == Response(404, NotFound("user not found"))) &&
        (req.lookup.Err? && !req.lookup.error.isRecordNotFound ==>
          o.response == Response(500, InternalServerError(req.lookup.error.message))) &&
        (req.lookup.Ok? ==> var u := req.lookup.value;
          o.response == Response(200, Detail(UserDetailResponse(u.id, u.username, u.email, u.isActive, u.isSuperuser))))))
  {
  }

  /** The stored password hash never influences the detail response. */
  lemma DetailHidesPassword(a: DetailRequest, b: DetailRequest)
    requires a.auth.Ok? == b.auth.Ok? && a.userId == b.userId && a.uuidValid == b.uuidValid
    requires SameUpToPassword(a.lookup, b.lookup)
    ensures GetDetailUserRoute(a).response == GetDetailUserRoute(b).response
  {

  }

  // ---------------------------------------------------------------------------
  // POST /user/

  /** `body` is what c.BodyParser yields, `validation` what the validator
      reports on it, and `created` what repository.CreateUser would return. */
  datatype CreateRequest = CreateRequest(
    auth: Result<User>, body: Result<UserCreateRequest>, validation: ValidatorReport,
    created: Result<User>)

  function CreateUserRoute(req: CreateRequest): (o: Outcome)
    ensures Consistent(o.response)
    ensures o.response.status in {201, 400, 401, 422, 500}
    ensures FollowsPlan(o.calls, CreatePlan)
    ensures o.response.status == 401 <==> req.auth.Err?
    ensures req.auth.Err? ==> o == Outcome(Response(401, Unauthorized("Invalid/Expired token")), [Authorize])
    ensures !ReadOnly(o.calls) <==> req.auth.Ok? && req.body.Ok? && req.validation.NoError?
  {
    if req.auth.Err? then Outcome(InvalidToken(), [Authorize])
    else
      match req.body
      case Err(e) => Outcome(MalformedBody(e), [Authorize, ParseBody])
      case Ok(nu) =>
        var verdict := SchemaVerdict(req.validation);
        if !verdict.0 then Outcome(ValidationFailed(verdict.1), [Authorize, ParseBody, ValidateCreate(nu)])
        else
          var calls := [Authorize, ParseBody, ValidateCreate(nu),
                        CreateUser(nu.username, nu.email, nu.password, nu.isActive, nu.isSuperuser)];
          assert calls[3].Mutates();
          match req.created
          case Err(e) => Outcome(ServerError(e), calls)
          case Ok(u) =>
            Outcome(Response(201, Created(UserCreateResponse(u.id, u.username, u.email, u.isActive, u.isSuperuser))), calls)
  }

  /** After authorization: a parse failure is 400 with the parser's text; a
      validation failure is 422 listing every failure as {field: message}; the
      repository is then asked to create the user from the request fields, its
      error is 500 and its result is echoed with 201. */
  lemma CreateLadder(req: CreateRequest)
    requires req.auth.Ok?
    ensures var o := CreateUserRoute(req);
      (req.body.Err? ==> (o.response == Response(400, BadRequest(req.body.error.message)) &&
        o.calls == [Authorize, ParseBody])) &&
      (req.body.Ok? && req.validation.Failed? ==>
        var fs := req.validation.failures;
        o.response.status == 422 && o.response.body.Unprocessable? &&
        o.calls == [Authorize, ParseBody, ValidateCreate(req.body.value)] &&
        |o.response.body.entity.message| == |fs| &&
        forall i :: 0 <= i < |fs| ==> o.response.body.entity.message[i] == map[fs[i].field := fs[i].message]) &&
      (req.body.Ok? && req.validation.NoError? ==>
        var nu := req.body.value;
        o.calls[3] == CreateUser(nu.username, nu.email, nu.password, nu.isActive, nu.isSuperuser) &&
        (req.created.Err? ==> o.response == Response(500, InternalServerError(req.created.error.message))) &&
        (req.created.Ok? ==> var u := req.created.value;
          o.response == Response(201, Created(UserCreateResponse(u.id, u.username, u.email, u.isActive, u.isSuperuser)))))
  {

  }

  /** The created user's password hash never influences the response. */
  lemma CreateHidesPassword(a: CreateRequest, b: CreateRequest)
    requires a.auth.Ok? == b.auth.Ok? && a.body == b.body && a.validation == b.validation
    requires SameUpToPassword(a.created, b.created)
    ensures CreateUserRoute(a).response == CreateUserRoute(b).response
  {

  }

  // ---------------------------------------------------------------------------
  // PUT /user/{userId}

  /** `lookup` is repository.GetUserById on the path id and `updated` what
      repository.UpdateUser would return. */
  datatype UpdateRequest = UpdateRequest(
    auth: Result<User>, userId: string, uuidValid: bool, body: Result<UserUpdateRequest>,
    validation: ValidatorReport, lookup: Result<User>, updated: Result<User>)

  function UpdateUserRoute(req: UpdateRequest): (o: Outcome)
    ensures Consistent(o.response)
    ensures o.response.status in {200, 400, 401, 404, 422, 500}
    ensures FollowsPlan(o.calls, UpdatePlan)
    ensures o.response.status == 401 <==> req.auth.Err?
    ensures req.auth.Err? ==> o == Outcome(Response(401, Unauthorized("Invalid/Expired token")), [Authorize])
    ensures !ReadOnly(o.calls) <==>
      req.auth.Ok? && req.uuidValid && req.body.Ok? && req.validation.NoError? && req.lookup.Ok?
  {
    if req.auth.Err? then Outcome(InvalidToken(), [Authorize])
    else if !req.uuidValid then Outcome(UserNotFound(), [Authorize, CheckUuid(req.userId)])
    else
      var checked := [Authorize, CheckUuid(req.userId)];
      match req.body
      case Err(e) => Outcome(MalformedBody(e), checked + [ParseBody])
      case Ok(ju) =>
        var verdict := SchemaVerdict(req.validation);
        if !verdict.0 then Outcome(ValidationFailed(verdict.1), checked + [ParseBody, ValidateUpdate(ju)])
        else
          var looked := checked + [ParseBody, ValidateUpdate(ju), GetUserById(req.userId)];
          match req.lookup
          case Err(e) => Outcome(LookupFailed(e), looked)
          case Ok(existing) =>
            var calls := looked + [UpdateUser(existing, ju.email, ju.username, ju.password, ju.isActive, ju.isSuperuser)];
            assert calls[5].Mutates();
            match req.updated
            case Err(e) => Outcome(ServerError(e), calls)
            case Ok(u) =>
              Outcome(Response(200, Updated(UserUpdateResponse(u.id, u.username, u.email, u.isActive, u.isSuperuser))), calls)
  }

  /** After authorization the checks run in the order UUID, body parse (400),
      validation (422), lookup: a bad body is reported before, and without,
      looking the user up. */
  lemma UpdateCheckOrder(req: UpdateRequest)
    requires req.auth.Ok?
    ensures var o := UpdateUserRoute(req);
      (!req.uuidValid ==> (o.response == Response(404, NotFound("user not found")) &&
        o.calls == [Authorize, CheckUuid(req.userId)])) &&
      (req.uuidValid && req.body.Err? ==>
        o.response == Response(400, BadRequest(req.body.error.message)) &&
        o.calls == [Authorize, CheckUuid(req.userId), ParseBody]) &&
      (req.uuidValid && req.body.Ok? && req.validation.Failed? ==>
        o.response.status == 422 &&
        o.response.body == Unprocessable(UnprocessableEntityResponse(FieldMessages(req.validation.failures))) &&
        o.calls == [Authorize, CheckUuid(req.userId), ParseBody, ValidateUpdate(req.body.value)])
  {
  }

  /** A malformed body on a well-formed id is 400 or 422 even when no such user
      exists: the lookup's 404 is never reached. */
  lemma UpdateBodyBeforeExistence(req: UpdateRequest)
    requires req.auth.Ok? && req.uuidValid
    requires req.lookup.Err? && req.lookup.error.isRecordNotFound
    requires req.body.Err? || req.validation.Failed?
    ensures UpdateUserRoute(req).response.status in {400, 422}
    ensures GetUserById(req.userId) !in UpdateUserRoute(req).calls
  {
  }

  /** With a valid id and body: the path id is looked up (404 / 500 as in the
      detail handler), the found user is updated with the request's fields, an
      update error is 500 and the updated user is echoed with 200. */
  lemma UpdateLookupAndWrite(req: UpdateRequest)
    requires req.auth.Ok? && req.uuidValid && req.body.Ok? && req.validation.NoError?
    ensures var o := UpdateUserRoute(req);
      o.calls[4] == GetUserById(req.userId) &&
      (req.lookup.Err? && req.lookup.error.isRecordNotFound ==>
        o.response == Response(404, NotFound("user not found"))) &&
      (req.lookup.Err? && !req.lookup.error.isRecordNotFound ==>
        o.response == Response(500, InternalServerError(req.lookup.error.message))) &&
      (req.lookup.Ok? ==>
        var ju := req.body.value;
        o.calls[5] == UpdateUser(req.lookup.value, ju.email, ju.username, ju.password, ju.isActive, ju.isSuperuser) &&
        (req.updated.Err? ==> o.response == Response(500, InternalServerError(req.updated.error.message))) &&
        (req.updated.Ok? ==> var u := req.updated.value;
          o.response == Response(200, Updated(UserUpdateResponse(u.id, u.username, u.email, u.isActive, u.isSuperuser)))))
  {
  }

  /** Neither the existing nor the updated password hash influences the response. */
  lemma UpdateHidesPassword(a: UpdateRequest, b: UpdateRequest)
    requires a.auth.Ok? == b.auth.Ok? && a.userId == b.userId && a.uuidValid == b.uuidValid
    requires a.body == b.body && a.validation == b.validation
    requires a.lookup.Ok? == b.lookup.Ok? && (a.lookup.Err? ==> a.lookup == b.lookup)
    requires SameUpToPassword(a.updated, b.updated)
    ensures UpdateUserRoute(a).response == UpdateUserRoute(b).response
  {

  }

  // ---------------------------------------------------------------------------
  // DELETE /user/{userId}

  /** `deletion` is what repository.DeleteUser would return; only its error is read. */
  datatype DeleteRequest = DeleteRequest(
    auth: Result<User>, userId: string, uuidValid: bool, lookup: Result<User>, deletion: Result<User>)

  function DeleteUserRoute(req: DeleteRequest): (o: Outcome)
    ensures Consistent(o.response)
    ensures o.response.status in {204, 401, 404, 500}
    ensures FollowsPlan(o.calls, DeletePlan)
    ensures o.response.status == 401 <==> req.auth.Err?
    ensures req.auth.Err? ==> o == Outcome(Response(401, Unauthorized("Invalid/Expired token")), [Authorize])
    ensures !ReadOnly(o.calls) <==> req.auth.Ok? && req.uuidValid && req.lookup.Ok?
  {
    if req.auth.Err? then Outcome(InvalidToken(), [Authorize])
    else if !req.uuidValid then Outcome(UserNotFound(), [Authorize, CheckUuid(req.userId)])
    else
      var looked := [Authorize, CheckUuid(req.userId), GetUserById(req.userId)];
      match req.lookup
      case Err(e) => Outcome(LookupFailed(e), looked)
      case Ok(user) =>
        var calls := looked + [DeleteUser(user)];
        assert calls[3].Mutates();
        match req.deletion
        case Err(e) => Outcome(ServerError(e), calls)
        case Ok(_) => Outcome(Response(204, Null), calls)
  }

  /** After authorization: a bad id is 404 without a lookup; a failed lookup is
      404 or 500; the found user is deleted, a delete error is 500 and success
      is 204 with an empty body. */
  lemma DeleteLadder(req: DeleteRequest)
    requires req.auth.Ok?
    ensures var o := DeleteUserRoute(req);
      (!req.uuidValid ==> (o.response == Response(404, NotFound("user not found")) &&
        o.calls == [Authorize, CheckUuid(req.userId)])) &&
      (req.uuidValid ==> (o.calls[2] == GetUserById(req.userId) &&
        (req.lookup.Err? && req.lookup.error.isRecordNotFound ==>
          o.response == Response(404, NotFound("user not found")) && |o.calls| == 3) &&
        (req.lookup.Err? && !req.lookup.error.isRecordNotFound ==>
          o.response == Response(500, InternalServerError(req.lookup.error.message)) && |o.calls| == 3) &&
        (req.lookup.Ok? ==> (o.calls[3] == DeleteUser(req.lookup.value) &&
          (req.deletion.Err? ==> o.response == Response(500, InternalServerError(req.deletion.error.message))) &&
          (req.deletion.Ok? ==> o.response == Response(204, Null))))))
  {
  }

  /** Detail and delete give the same answer for the same token, id and failed
      lookup, so a soft-deleted user (not found) is 404 on both. */
  lemma DetailAndDeleteAgreeOnFailures(d: DetailRequest, x: DeleteRequest)
    requires d.auth.Ok? == x.auth.Ok? && d.userId == x.userId && d.uuidValid == x.uuidValid
    requires d.lookup == x.lookup && d.lookup.Err?
    ensures GetDetailUserRoute(d) == DeleteUserRoute(x)
  {
  }
}
