/**
  The API handle of api.go: where resources live, which headers every call
  carries, how a reply's status is classified, and the request wrapper that
  puts these together.
*/
module Stash {
  import opened Results
  import opened Http

  datatype Api = Api(url: string, user: string, token: string)

  datatype Project = Project(api: Api, name: string)

  datatype Repo = Repo(project: Project, name: string, resource: seq<string>)

  const UserHeader := "X-Auth-User"
  const TokenHeader := "X-Auth-Token"

  /** Statuses that mean the call succeeded. */
  const SuccessCodes: set<int> := {200, 201, 204}

  /** Statuses whose body, when present, is the server's own error description. */
  const ApiErrorCodes: set<int> := {400, 401, 404, 409}

  /** A response the wrapper reports as success. */
  predicate Accepted(resp: Response) {
    resp.Replied? && resp.raw.status in SuccessCodes
  }

  /** The root resource: the REST endpoint under the server URL. */
  function GetResource(api: Api): (path: seq<string>)
    ensures |path| == 1 && path[0] == api.url + "/rest"
  {
    [api.url + "/rest"]
  }

  /** The resource of a repository: root, API version, project, `repos`, repository name. */
  function GetRepo(project: Project, name: string): (r: Repo)
    ensures r.project == project && r.name == name
    ensures |r.resource| == 5
    ensures r.resource[..1] == GetResource(project.api)
    ensures r.resource[1] == "api/1.0" && r.resource[2] == project.name
    ensures r.resource[3] == "repos" && r.resource[4] == name
  {
    Repo(project, name, GetResource(project.api) + ["api/1.0", project.name, "repos", name])
  }

  /** Distinct repositories of one project live at distinct resources. */
  lemma GetRepoInjective(project: Project, a: string, b: string)
    ensures GetRepo(project, a).resource == GetRepo(project, b).resource ==> a == b
  {
  }

  /**
    Seconds since the epoch of a millisecond timestamp. Go's integer division
    truncates toward zero, which Dafny's Euclidean `/` does not for negatives.
  */
  function AsTime(millis: int): (seconds: int)
    ensures millis >= 0 ==> 0 <= seconds * 1000 <= millis < seconds * 1000 + 1000
    ensures millis < 0 ==> seconds * 1000 - 1000 < millis <= seconds * 1000 <= 0
  {
    if millis >= 0 then millis / 1000 else -((-millis) / 1000)
  }

  /** For the timestamps the server sends (never negative) this is plain division. */
  lemma AsTimeNonNegative(millis: int)
    requires millis >= 0
    ensures AsTime(millis) == millis / 1000
  {
  }

  /** The headers every call carries. */
  function AuthHeaders(api: Api): (h: Headers)
    ensures h.Keys == {UserHeader, TokenHeader}
    ensures h[UserHeader] == api.user && h[TokenHeader] == api.token
  {
    map[UserHeader := api.user, TokenHeader := api.token]
  }

  /**
    Classifies a reply: success statuses give no error, the four API-error statuses
    give the body as a structured error when it is non-empty, and every other
    case names the unexpected status.
  */
  function CheckErrorStatus(raw: Raw): (e: Option<Error>)
    ensures e.None? <==> raw.status in SuccessCodes
    ensures e == Some(StashApiError(raw.body)) <==> raw.status in ApiErrorCodes && |raw.body| > 0
    ensures e == Some(UnexpectedStatusCode(raw.status))
      <==> raw.status !in SuccessCodes && (raw.status !in ApiErrorCodes || |raw.body| == 0)
  {
    if raw.status in SuccessCodes then None
    else if raw.status in ApiErrorCodes then
      if |raw.body| > 0 then Some(StashApiError(raw.body)) else Some(UnexpectedStatusCode(raw.status))
    else Some(UnexpectedStatusCode(raw.status))
  }

  /** The response of one call and the error the wrapper reports for it. */
  datatype Call = Call(response: Response, err: Option<Error>)

  /**
    Sends `req` with the authentication headers. A call that failed in the
    transport reports that failure as it is, without classification; otherwise
    the classifier decides.
  */
  function DoRequest(api: Api, send: Transport, req: Request): (c: Call)
    ensures c.response == send(AuthHeaders(api), req)
    ensures c.response.Failed? ==> c.err == Some(TransportError(c.response.cause))
    ensures c.response.Replied? ==> c.err == CheckErrorStatus(c.response.raw)
  {
    var resp := send(AuthHeaders(api), req);
    match resp
    case Failed(cause, _) => Call(resp, Some(TransportError(cause)))
    case Replied(raw, _) => Call(resp, CheckErrorStatus(raw))
  }

  /** The wrapper reports success exactly for a completed reply with a success status. */
  lemma DoRequestSucceeds(api: Api, send: Transport, req: Request)
    ensures DoRequest(api, send, req).err.None? <==> Accepted(send(AuthHeaders(api), req))
  {
  }

  /** The Go `(value, error)` return of a single call: the value only when the call succeeded. */
  function Finish<T>(c: Call, value: T): (r: Outcome<T>)
    ensures r.Ok? <==> c.err.None?
    ensures r.Ok? ==> r.value == value
    ensures r.Err? ==> c.err == Some(r.error)
  {
    if c.err.Some? then Err(c.err.value) else Ok(value)
  }
}
