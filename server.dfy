/** The proxy server's request handling: what each route sends upstream to
    the GitHub REST API, and how it answers its client. A handler either
    answers at once or makes one upstream call and answers from its result. */
module Server {
  import opened Options

  /** A JSON value as the handlers see it; objects and arrays are opaque. */
  datatype JsValue = Undefined | Null | Bool(b: bool) | Num(n: real) | Str(s: string) | Obj

  /** JavaScript truthiness (NaN is not modelled). */
  predicate Truthy(v: JsValue)
  {
    match v
    case Undefined => false
    case Null => false
    case Bool(b) => b
    case Num(n) => n != 0.0
    case Str(s) => s != ""
    case Obj => true
  }

  /** JavaScript's `a || b`. */
  function Or(a: JsValue, b: JsValue): JsValue
  {
    if Truthy(a) then a else b
  }

  const GITHUB_API: string := "https://api.github.com"
  const PER_PAGE: int := 10

  /** The header every upstream call sends: the client's `Authorization`
      header behind "token ", interpolated as "undefined" when absent. */
  function AuthorizationHeader(authorization: Option<string>): (h: string)
    ensures |h| >= 6 && h[..6] == "token "
    ensures authorization.Some? ==> h[6..] == authorization.value
  {
    "token " + authorization.GetOr("undefined")
  }

  datatype Method = Get | Post

  /** The query string of an upstream call: none, or the `per_page` and
      `page` parameters of a repository listing. */
  datatype UpstreamQuery =
    | NoQuery
    | RepoPage(perPage: int, page: JsValue)

  /** The JSON body of an upstream call: none, or a new repository. */
  datatype UpstreamBody =
    | NoBody
    | NewRepo(name: JsValue, description: JsValue, isPrivate: bool, autoInit: JsValue, allowForking: JsValue)

  datatype UpstreamRequest =
    UpstreamRequest(verb: Method, url: string, authorization: string, query: UpstreamQuery, body: UpstreamBody)

  /** What an upstream call resolves to: its data, or an error carrying the
      upstream's response data (`Undefined` when there was no response) and
      the error message. */
  datatype UpstreamResult = Success(data: JsValue) | Failure(responseData: JsValue, message: string)

  datatype ResponseBody =
    | Json(data: JsValue)
    | ErrorMessage(error: string)
    | RepoCreated(message: string, repo: JsValue)
    | CreateFailed(error: string, details: JsValue)
    | DetailFailed(message: string, error: string)

  datatype HttpResponse = HttpResponse(status: int, body: ResponseBody)

  /** A handler's first move: answer at once, or call upstream. */
  datatype Step = Respond(response: HttpResponse) | CallUpstream(request: UpstreamRequest)

  /** The fields of a `/create-repo` request body, each possibly absent. */
  datatype CreateRepoBody = CreateRepoBody(
    name: JsValue, description: JsValue, visibility: JsValue, autoInit: JsValue, allowForking: JsValue)

  /** `GET /fetch-repos?page=…`: one page of ten of the user's repositories;
      the first page unless the query names a (non-empty) page. */
  function FetchReposStep(queryPage: JsValue, authorization: Option<string>): (step: Step)
    ensures step.CallUpstream? && step.request.verb == Get
    ensures step.request.url == GITHUB_API + "/user/repos"
    ensures step.request.body == NoBody
    ensures step.request.query.RepoPage? && step.request.query.perPage == PER_PAGE
    ensures Truthy(queryPage) ==> step.request.query.page == queryPage
    ensures !Truthy(queryPage) ==> step.request.query.page == Num(1.0)
  {
    CallUpstream(UpstreamRequest(Get, GITHUB_API + "/user/repos", AuthorizationHeader(authorization),
                                 RepoPage(PER_PAGE, Or(queryPage, Num(1.0))), NoBody))
  }

  /** The page GitHub returned is passed on unchanged; a failure becomes
      500 with a fixed message. */
  function FetchReposReply(result: UpstreamResult): (r: HttpResponse)
    ensures r.status == if result.Success? then 200 else 500
    ensures result.Success? ==> r.body == Json(result.data)
    ensures result.Failure? ==> r.body == ErrorMessage("Failed to fetch repositories")
  {
    match result
    case Success(data) => HttpResponse(200, Json(data))
    case Failure(_, _) => HttpResponse(500, ErrorMessage("Failed to fetch repositories"))
  }

  /** `GET /user`: the logged-in user. */
  function UserStep(authorization: Option<string>): (step: Step)
    ensures step.CallUpstream? && step.request.verb == Get
    ensures step.request.query == NoQuery && step.request.body == NoBody
    ensures step.request.url == GITHUB_API + "/user"
    ensures step.request.authorization == AuthorizationHeader(authorization)
  {
    CallUpstream(UpstreamRequest(Get, GITHUB_API + "/user", AuthorizationHeader(authorization), NoQuery, NoBody))
  }

  /** The user record is passed on unchanged; a failure becomes 500. */
  function UserReply(result: UpstreamResult): (r: HttpResponse)
    ensures r.status == if result.Success? then 200 else 500
    ensures result.Success? ==> r.body == Json(result.data)
    ensures result.Failure? ==> r.body == ErrorMessage("Failed to fetch user details")
  {
    match result
    case Success(data) => HttpResponse(200, Json(data))
    case Failure(_, _) => HttpResponse(500, ErrorMessage("Failed to fetch user details"))
  }

  /** `POST /create-repo`: a missing name or visibility is refused with 400
      before anything is sent upstream; otherwise the new repository is
      requested with defaults for the optional fields. */
  function CreateRepoStep(body: CreateRepoBody, authorization: Option<string>): (step: Step)
    ensures step.Respond? <==> !Truthy(body.name) || !Truthy(body.visibility)
    ensures step.Respond? ==>
              step.response == HttpResponse(400, ErrorMessage("Repository name and visibility are required"))
    ensures step.CallUpstream? ==>
              && step.request.verb == Post
              && step.request.url == GITHUB_API + "/user/repos"
              && step.request.authorization == AuthorizationHeader(authorization)
              && step.request.query == NoQuery
              && step.request.body.NewRepo?
              && step.request.body.name == body.name
              && (step.request.body.isPrivate <==> body.visibility == Str("private"))
              && step.request.body.description == (if Truthy(body.description) then body.description else Str(""))
              && step.request.body.autoInit == (if Truthy(body.autoInit) then body.autoInit else Bool(false))
              && step.request.body.allowForking == (if body.allowForking == Undefined then Bool(true) else body.allowForking)
  {
    if !Truthy(body.name) || !Truthy(body.visibility) then
      Respond(HttpResponse(400, ErrorMessage("Repository name and visibility are required")))
    else
      CallUpstream(UpstreamRequest(
        Post, GITHUB_API + "/user/repos", AuthorizationHeader(authorization), NoQuery,
        NewRepo(
          body.name,
          Or(body.description, Str("")),
          body.visibility == Str("private"),
          Or(body.autoInit, Bool(false)),
          if body.allowForking != Undefined then body.allowForking else Bool(true))))
  }

  /** The created repository is returned with 201; a failure becomes 500
      and carries the upstream's own response data as its details. */
  function CreateRepoReply(result: UpstreamResult): (r: HttpResponse)
    ensures r.status == if result.Success? then 201 else 500
    ensures result.Success? ==> r.body.RepoCreated? && r.body.repo == result.data
    ensures result.Failure? ==>
              r.body == CreateFailed("Failed to create repository", result.responseData)
  {
    match result
    case Success(data) => HttpResponse(201, RepoCreated("Repository created successfully", data))
    case Failure(responseData, _) => HttpResponse(500, CreateFailed("Failed to create repository", responseData))
  }

  /** `GET /repo/:id`: one repository by its numeric id. */
  function RepoDetailStep(repoId: string, authorization: Option<string>): (step: Step)
    ensures step.CallUpstream? && step.request.verb == Get
    ensures step.request.query == NoQuery && step.request.body == NoBody
    ensures step.request.url == GITHUB_API + "/repositories/" + repoId
    ensures step.request.authorization == AuthorizationHeader(authorization)
  {
    CallUpstream(UpstreamRequest(Get, GITHUB_API + "/repositories/" + repoId, AuthorizationHeader(authorization), NoQuery, NoBody))
  }

  /** The repository is passed on unchanged; a failure becomes 500 and
      carries the error's message. */
  function RepoDetailReply(result: UpstreamResult): (r: HttpResponse)
    ensures r.status == if result.Success? then 200 else 500
    ensures result.Success? ==> r.body == Json(result.data)
    ensures result.Failure? ==>
              r.body == DetailFailed("Error fetching repository details", result.message)
  {
    match result
    case Success(data) => HttpResponse(200, Json(data))
    case Failure(_, message) => HttpResponse(500, DetailFailed("Error fetching repository details", message))
  }

  /** The four proxy routes, with the request data each one reads. */
  datatype Route =
    | FetchRepos(queryPage: JsValue)
    | User
    | CreateRepo(body: CreateRepoBody)
    | RepoDetail(repoId: string)

  /** A route's first move. Every upstream call goes to the GitHub API; only
      the create route posts and sends a JSON body, and only the listing
      route sends a query string. */
  function Handle(route: Route, authorization: Option<string>): (step: Step)
    ensures step.CallUpstream? ==>
              |step.request.url| >= |GITHUB_API| && step.request.url[..|GITHUB_API|] == GITHUB_API
    ensures step.CallUpstream? ==> (step.request.verb == Post <==> route.CreateRepo?)
    ensures step.CallUpstream? ==> (step.request.body.NewRepo? <==> route.CreateRepo?)
    ensures step.CallUpstream? ==> (step.request.query.RepoPage? <==> route.FetchRepos?)
  {
    match route
    case FetchRepos(p) => FetchReposStep(p, authorization)
    case User => UserStep(authorization)
    case CreateRepo(body) => CreateRepoStep(body, authorization)
    case RepoDetail(id) => RepoDetailStep(id, authorization)
  }

  /** A route's answer once its upstream call resolved: on success the
      upstream data reaches the client unchanged. */
  function Reply(route: Route, result: UpstreamResult): (r: HttpResponse)
    ensures r.status == 500 <==> result.Failure?
    ensures result.Success? ==>
              (r.body.Json? && r.body.data == result.data) || (r.body.RepoCreated? && r.body.repo == result.data)
  {
    match route
    case FetchRepos(_) => FetchReposReply(result)
    case User => UserReply(result)
    case CreateRepo(_) => CreateRepoReply(result)
    case RepoDetail(_) => RepoDetailReply(result)
  }

  /** Every upstream call forwards the client's credential as "token <header>". */
  lemma UpstreamCallsCarryToken(route: Route, authorization: Option<string>)
    ensures Handle(route, authorization).CallUpstream? ==>
              Handle(route, authorization).request.authorization == AuthorizationHeader(authorization)
  {
  }

  /** Only an incomplete create request is answered without an upstream call. */
  lemma AnsweredWithoutUpstreamCall(route: Route, authorization: Option<string>)
    ensures Handle(route, authorization).Respond? <==>
              route.CreateRepo? && (!Truthy(route.body.name) || !Truthy(route.body.visibility))
    ensures Handle(route, authorization).Respond? ==> Handle(route, authorization).response.status == 400
  {
  }

  /** The error text each route answers a failed upstream call with. */
  function FailureText(route: Route): string
  {
    match route
    case FetchRepos(_) => "Failed to fetch repositories"
    case User => "Failed to fetch user details"
    case CreateRepo(_) => "Failed to create repository"
    case RepoDetail(_) => "Error fetching repository details"
  }

  /** The constant text of an error body; empty for a body that reports no error. */
  function ErrorText(body: ResponseBody): string
  {
    match body
    case ErrorMessage(error) => error
    case CreateFailed(error, _) => error
    case DetailFailed(message, _) => message
    case _ => ""
  }

  /** A failed upstream call is answered with 500 and the route's fixed
      error text; a successful one with 201 for a creation and 200 otherwise. */
  lemma ReplyStatus(route: Route, result: UpstreamResult)
    ensures result.Failure? ==>
              Reply(route, result).status == 500 && ErrorText(Reply(route, result).body) == FailureText(route)
    ensures result.Success? ==>
              Reply(route, result).status == (if route.CreateRepo? then 201 else 200) && ErrorText(Reply(route, result).body) == ""
  {
  }

  /** An explicit `allowForking: false` reaches GitHub as `false`; forking is
      switched on by default only when the field is absent. */
  lemma AllowForkingDefault(body: CreateRepoBody, authorization: Option<string>)
    requires Truthy(body.name) && Truthy(body.visibility)
    ensures var request := CreateRepoStep(body, authorization).request;
            && (body.allowForking == Bool(false) ==> request.body.allowForking == Bool(false))
            && (request.body.allowForking == Bool(true) <==> body.allowForking in {Undefined, Bool(true)})
  {
  }
}
