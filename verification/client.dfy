/** The Bitbucket API client, with the transport left abstract: a request is
    identified by its URL and answered by an `HttpOutcome`, which is an input
    of the model. What is modelled is how answers become values or typed
    errors, how the latest run is chosen, and how credentials are validated. */
module Client {
  import opened Wrappers
  import opened Text
  import opened Types

  const ApiBase: string := "https://api.bitbucket.org/2.0"

  /** How many runs are fetched when looking for the latest one. */
  const LatestPipelineLimit: nat := 20

  /** The client's error taxonomy. `Http` covers transport and decoding failures. */
  datatype BitbucketError =
    | Http(cause: string)
    | AuthenticationFailed
    | RateLimited
    | NotFound(resource: string)
    | ApiError(message: string)

  /** The text an error displays as: a fixed sentence for the two payload-free
      errors, and a kind prefix followed by the payload for the others. */
  function ErrorMessage(e: BitbucketError): (r: string)
    ensures e.Http? ==> StartsWith(r, "HTTP error: ") && r[12..] == e.cause
    ensures e.NotFound? ==> StartsWith(r, "Resource not found: ") && r[20..] == e.resource
    ensures e.ApiError? ==> StartsWith(r, "API error: ") && r[11..] == e.message
    ensures e.AuthenticationFailed? ==> r == "Authentication failed - check username and app password"
    ensures e.RateLimited? ==> r == "Rate limited - please wait before retrying"
  {
    match e
    case Http(cause) => "HTTP error: " + cause
    case AuthenticationFailed => "Authentication failed - check username and app password"
    case RateLimited => "Rate limited - please wait before retrying"
    case NotFound(resource) => "Resource not found: " + resource
    case ApiError(message) => "API error: " + message
  }

  /** Different errors display differently, so the message shown to the user
      identifies the error and its payload. */
  lemma {:induction false} ErrorMessageInjective(e1: BitbucketError, e2: BitbucketError)
    requires ErrorMessage(e1) == ErrorMessage(e2)
    ensures e1 == e2
  {
    MessageTag(e1);
    MessageTag(e2);
    assert KindTag(e1) == KindTag(e2);
  }

  /** The first two characters of each kind of message. */
  function KindTag(e: BitbucketError): string {
    match e
    case Http(_) => "HT"
    case AuthenticationFailed => "Au"
    case RateLimited => "Ra"
    case NotFound(_) => "Re"
    case ApiError(_) => "AP"
  }

  /** Every message opens with its kind's tag. */
  lemma MessageTag(e: BitbucketError)
    ensures |ErrorMessage(e)| >= 2 && ErrorMessage(e)[..2] == KindTag(e)
  {
    match e
    case Http(c) => assert ("HTTP error: " + c)[..2] == "HTTP error: "[..2];
    case NotFound(u) => assert ("Resource not found: " + u)[..2] == "Resource not found: "[..2];
    case ApiError(m) => assert ("API error: " + m)[..2] == "API error: "[..2];
    case AuthenticationFailed =>
      AuthenticationMessageHead();
    case RateLimited =>
      RateLimitedMessageHead();
  }

  /** The fixed authentication sentence starts with its kind's tag. */
  lemma AuthenticationMessageHead()
    ensures "Authentication failed - check username and app password"[..2] == "Au"
  {
    assert "Authentication failed - check username and app password"
        == "Authentication failed - " + "check username and app password";
  }

  /** The fixed rate-limit sentence starts with its kind's tag. */
  lemma RateLimitedMessageHead()
    ensures "Rate limited - please wait before retrying"[..2] == "Ra"
  {
    assert "Rate limited - please wait before retrying"
        == "Rate limited - " + "please wait before retrying";
  }

  /** What came back for one GET: either the request could not be sent, or a
      response with a status code, its body text and the JSON decoding of that
      body (a decoding failure carries its message). */
  datatype HttpOutcome<T> =
    | SendFailed(cause: string)
    | Response(status: nat, body: string, decoded: Result<T, string>)

  /** A client holds nothing but the authorization header fixed at construction. */
  datatype BitbucketClient = BitbucketClient(authHeader: string)

  /** Builds a client for basic authentication. `encode` stands for the
      base64 encoder, which is not part of this model. */
  function NewClient(username: string, appPassword: string, encode: string -> string): (c: BitbucketClient)
    ensures StartsWith(c.authHeader, "Basic ")
    ensures c.authHeader[|"Basic "|..] == encode(username + ":" + appPassword)
  {
    BitbucketClient("Basic " + encode(username + ":" + appPassword))
  }

  /** Index of the first colon of `s`, if any. */
  function FirstColon(s: string): (r: Option<nat>)
    ensures r.Some? ==> r.value < |s| && s[r.value] == ':' && forall j :: 0 <= j < r.value ==> s[j] != ':'
    ensures r.None? ==> forall j :: 0 <= j < |s| ==> s[j] != ':'
  {
    if |s| == 0 then None
    else if s[0] == ':' then Some(0)
    else match FirstColon(s[1..])
      case Some(k) => Some(k + 1)
      case None => None
  }

  /** With an injective encoder and colon-free user names, the header
      determines the user name and the password it was built from. */
  lemma {:induction false} AuthHeaderIdentifiesCredentials(
    u1: string, p1: string, u2: string, p2: string, encode: string -> string)
    requires forall a, b :: encode(a) == encode(b) ==> a == b
    requires forall j :: 0 <= j < |u1| ==> u1[j] != ':'
    requires forall j :: 0 <= j < |u2| ==> u2[j] != ':'
    requires NewClient(u1, p1, encode) == NewClient(u2, p2, encode)
    ensures u1 == u2 && p1 == p2
  {
    var h1 := NewClient(u1, p1, encode).authHeader;
    var h2 := NewClient(u2, p2, encode).authHeader;
    assert h1[|"Basic "|..] == h2[|"Basic "|..];
    var s1 := u1 + ":" + p1;
    var s2 := u2 + ":" + p2;
    assert s1 == s2;
    ColonSplit(u1, p1);
    ColonSplit(u2, p2);
    assert u1 == s1[..|u1|];
    assert p1 == s1[|u1| + 1..];
  }

  /** In `u + ":" + p` with a colon-free `u`, the first colon ends `u`. */
  lemma ColonSplit(u: string, p: string)
    requires forall j :: 0 <= j < |u| ==> u[j] != ':'
    ensures FirstColon(u + ":" + p) == Some(|u|)
  {
    var s := u + ":" + p;
    assert s[|u|] == ':';
    assert forall j :: 0 <= j < |u| ==> s[j] == u[j];
  }

  /** Maps one GET's answer to a value or a typed error: 200 decodes the body,
      401, 429 and 404 have their own errors, anything else is an API error
      carrying the status and the body. */
  function Get<T>(url: string, resp: HttpOutcome<T>): (r: Result<T, BitbucketError>)
    ensures resp.SendFailed? ==> r == Err(Http(resp.cause))
    ensures r.Ok? <==> resp.Response? && resp.status == 200 && resp.decoded.Ok?
    ensures r.Ok? ==> r.value == resp.decoded.value
    ensures resp.Response? && resp.status == 200 && resp.decoded.Err? ==> r == Err(Http(resp.decoded.error))
    ensures r == Err(AuthenticationFailed) <==> resp.Response? && resp.status == 401
    ensures r == Err(RateLimited) <==> resp.Response? && resp.status == 429
    ensures (r.Err? && r.error.NotFound?) <==> resp.Response? && resp.status == 404
    ensures r.Err? && r.error.NotFound? ==> r.error.resource == url
    ensures (r.Err? && r.error.ApiError?) <==> resp.Response? && resp.status !in {200, 401, 404, 429}
    ensures r.Err? && r.error.ApiError? ==>
      r.error.message == "Status " + NatToString(resp.status) + ": " + resp.body
  {
    match resp
    case SendFailed(cause) => Err(Http(cause))
    case Response(status, body, decoded) =>
      if status == 200 then
        match decoded
        case Ok(v) => Ok(v)
        case Err(msg) => Err(Http(msg))
      else if status == 401 then Err(AuthenticationFailed)
      else if status == 429 then Err(RateLimited)
      else if status == 404 then Err(NotFound(url))
      else Err(ApiError("Status " + NatToString(status) + ": " + body))
  }

  /** URL of the most recent runs of a repository, newest first. */
  function PipelinesUrl(workspace: string, repoSlug: string, limit: nat): string {
    ApiBase + "/repositories/" + workspace + "/" + repoSlug
      + "/pipelines/?sort=-created_on&pagelen=" + NatToString(limit)
  }

  /** URL of the steps of one run. */
  function StepsUrl(workspace: string, repoSlug: string, pipelineUuid: string): string {
    ApiBase + "/repositories/" + workspace + "/" + repoSlug + "/pipelines/" + pipelineUuid + "/steps/"
  }

  /** URL of the workspaces the user can see. */
  const WorkspacesUrl: string := ApiBase + "/workspaces?pagelen=100"

  /** The runs URL asks for `limit` runs, and different limits give different URLs. */
  lemma PipelinesUrlNamesLimit(workspace: string, repoSlug: string, m: nat, n: nat)
    ensures EndsWith(PipelinesUrl(workspace, repoSlug, n), "/pipelines/?sort=-created_on&pagelen=" + NatToString(n))
    ensures PipelinesUrl(workspace, repoSlug, m) == PipelinesUrl(workspace, repoSlug, n) <==> m == n
  {
    var pre := ApiBase + "/repositories/" + workspace + "/" + repoSlug + "/pipelines/?sort=-created_on&pagelen=";
    assert PipelinesUrl(workspace, repoSlug, n)[|pre|..] == NatToString(n);
    assert PipelinesUrl(workspace, repoSlug, m)[|pre|..] == NatToString(m);
    NatToStringInjective(m, n);
  }

  /** The runs of a repository, as answered by `resp` to the runs URL: the
      decoded list on success, and a missing repository reported with that URL. */
  function GetPipelines(workspace: string, repoSlug: string, limit: nat,
                        resp: HttpOutcome<seq<Pipeline>>): (r: Result<seq<Pipeline>, BitbucketError>)
    ensures r == Get(PipelinesUrl(workspace, repoSlug, limit), resp)
    ensures r.Ok? <==> resp.Response? && resp.status == 200 && resp.decoded.Ok?
    ensures r.Ok? ==> r.value == resp.decoded.value
    ensures r.Err? && r.error.NotFound? ==> r.error.resource == PipelinesUrl(workspace, repoSlug, limit)
  {
    Get(PipelinesUrl(workspace, repoSlug, limit), resp)
  }

  /** The steps of a run, as answered by `resp` to the steps URL: the decoded
      list on success, and a missing run reported with that URL. */
  function GetPipelineSteps(workspace: string, repoSlug: string, pipelineUuid: string,
                            resp: HttpOutcome<seq<PipelineStep>>): (r: Result<seq<PipelineStep>, BitbucketError>)
    ensures r == Get(StepsUrl(workspace, repoSlug, pipelineUuid), resp)
    ensures r.Ok? <==> resp.Response? && resp.status == 200 && resp.decoded.Ok?
    ensures r.Ok? ==> r.value == resp.decoded.value
    ensures r.Err? && r.error.NotFound? ==> r.error.resource == StepsUrl(workspace, repoSlug, pipelineUuid)
  {
    Get(StepsUrl(workspace, repoSlug, pipelineUuid), resp)
  }

  /** A run passes the optional branch filter. */
  predicate OnBranch(p: Pipeline, branch: Option<string>) {
    branch.None? || Branch(p) == branch
  }

  /** A run passes a branch filter exactly when its `target.ref_name` is that
      branch; without a filter every run passes. */
  lemma OnBranchReadsRefName(p: Pipeline, b: string)
    ensures OnBranch(p, Some(b)) <==> p.target.refName == Some(b)
    ensures OnBranch(p, None)
  {
  }

  /** Position of the first run (in server order) that passes the filter. */
  function FirstOnBranch(ps: seq<Pipeline>, branch: Option<string>): (r: Option<nat>)
    ensures r.Some? ==> r.value < |ps| && OnBranch(ps[r.value], branch)
                        && forall j :: 0 <= j < r.value ==> !OnBranch(ps[j], branch)
    ensures r.None? ==> forall j :: 0 <= j < |ps| ==> !OnBranch(ps[j], branch)
  {
    if |ps| == 0 then None
    else if OnBranch(ps[0], branch) then Some(0)
    else match FirstOnBranch(ps[1..], branch)
      case Some(k) => Some(k + 1)
      case None => None
  }

  /** The latest run of a repository, optionally restricted to one branch:
      the first of the 20 most recent runs whose branch matches, or the most
      recent run when there is no filter. Fetch errors pass through unchanged. */
  function GetLatestPipeline(workspace: string, repoSlug: string, branch: Option<string>,
                             resp: HttpOutcome<seq<Pipeline>>): (r: Result<Option<Pipeline>, BitbucketError>)
    ensures var fetched := GetPipelines(workspace, repoSlug, LatestPipelineLimit, resp);
      && (fetched.Err? ==> r == Err(fetched.error))
      && (fetched.Ok? ==> r.Ok?)
      && (fetched.Ok? && r.value.Some? ==>
            exists k :: 0 <= k < |fetched.value| && fetched.value[k] == r.value.value
                        && OnBranch(fetched.value[k], branch)
                        && forall j :: 0 <= j < k ==> !OnBranch(fetched.value[j], branch))
      && (fetched.Ok? && r.value.None? ==>
            forall j :: 0 <= j < |fetched.value| ==> !OnBranch(fetched.value[j], branch))
    ensures branch.None? && r.Ok? ==>
      r.value == (if |resp.decoded.value| == 0 then None else Some(resp.decoded.value[0]))
  {
    match GetPipelines(workspace, repoSlug, LatestPipelineLimit, resp)
    case Err(e) => Err(e)
    case Ok(ps) =>
      match FirstOnBranch(ps, branch)
      case Some(k) => Ok(Some(ps[k]))
      case None => Ok(None)
  }

  /** Checks credentials by listing workspaces: success means valid, an
      authentication failure means invalid, and every other error is passed on
      rather than read as "invalid". */
  function ValidateCredentials<T>(resp: HttpOutcome<T>): (r: Result<bool, BitbucketError>)
    ensures r == Ok(true) <==> Get(WorkspacesUrl, resp).Ok?
    ensures r == Ok(false) <==> resp.Response? && resp.status == 401
    ensures r.Err? ==> r.error == Get(WorkspacesUrl, resp).error && r.error != AuthenticationFailed
  {
    match Get(WorkspacesUrl, resp)
    case Ok(_) => Ok(true)
    case Err(AuthenticationFailed) => Ok(false)
    case Err(e) => Err(e)
  }

  /** Rate limiting, server errors and transport failures are never reported
      as bad credentials. */
  lemma ValidateKeepsTransientErrors<T>(resp: HttpOutcome<T>)
    ensures resp.SendFailed? ==> ValidateCredentials(resp) == Err(Http(resp.cause))
    ensures resp.Response? && resp.status == 429 ==> ValidateCredentials(resp) == Err(RateLimited)
    ensures resp.Response? && resp.status == 500 ==> ValidateCredentials(resp).Err?
  {
  }

  /** Branch filtering on runs newest-first on branches A, A, B: asking for B
      gives the B run although it is not the newest; asking for C gives none. */
  lemma BranchFilterExample(a1: Pipeline, a2: Pipeline, b: Pipeline, ws: string, repo: string, body: string)
    requires a1.target.refName == Some("A") && a2.target.refName == Some("A")
    requires b.target.refName == Some("B")
    ensures GetLatestPipeline(ws, repo, Some("B"), Response(200, body, Ok([a1, a2, b]))) == Ok(Some(b))
    ensures GetLatestPipeline(ws, repo, Some("C"), Response(200, body, Ok([a1, a2, b]))) == Ok(None)
    ensures GetLatestPipeline(ws, repo, None, Response(200, body, Ok([a1, a2, b]))) == Ok(Some(a1))
  {
    var ps := [a1, a2, b];
    assert FirstOnBranch(ps[2..], Some("B")) == Some(0);
    assert FirstOnBranch(ps[1..], Some("B")) == Some(1) by {
      assert ps[1..][1..] == ps[2..];
    }
  }
}
