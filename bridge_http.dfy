/**
 * The request handler of scripts/codex_http_bridge.py: token checks, the
 * request target's path, the JSON body, and the three routes
 * (`GET /health`, `GET /jobs/<id>`, `POST /jobs`). Sockets and the JSON
 * codec are outside the model: a request arrives as its target and the
 * headers the handler reads, and the body as what decoding it produced.
 */
module BridgeHttp {
  import opened Wrappers
  import opened Text
  import opened JobStore
  import Json

  // ---------------------------------------------------------------------------
  // authentication

  const BearerPrefix: string := "Bearer "

  /** `auth_ok`. A missing header reads as the empty string. An
      `Authorization` header that starts with `Bearer ` (case-sensitive)
      decides alone; otherwise a non-empty `X-Bridge-Token` must equal the
      token. */
  function AuthOk(authorization: string, bridgeToken: string, token: string): bool {
    if StartsWith(authorization, BearerPrefix) then Strip(authorization[|BearerPrefix|..]) == token
    else bridgeToken != [] && bridgeToken == token
  }

  /** With the token the bridge starts with (stripped and non-empty):
      either header carrying it is accepted, white space around a bearer token
      is forgiven, nothing is accepted unless one header carries the token, and
      a wrong bearer token is not rescued by a right `X-Bridge-Token`. A
      `Bearer ` header is accepted exactly when its stripped remainder is the
      token, whatever `X-Bridge-Token` holds; without one, exactly a non-empty
      `X-Bridge-Token` equal to the token is accepted. */
  lemma AuthSpec(authorization: string, bridgeToken: string, token: string)
    requires token != [] && Strip(token) == token
    ensures StartsWith(authorization, BearerPrefix) ==>
              (AuthOk(authorization, bridgeToken, token) <==> Strip(authorization[|BearerPrefix|..]) == token)
    ensures !StartsWith(authorization, BearerPrefix) ==>
              (AuthOk(authorization, bridgeToken, token) <==> bridgeToken != [] && bridgeToken == token)
    ensures AuthOk(BearerPrefix + token, bridgeToken, token)
    ensures AuthOk(BearerPrefix + " " + token + " ", bridgeToken, token)
    ensures !StartsWith(authorization, BearerPrefix) ==> AuthOk(authorization, token, token)
    ensures AuthOk(authorization, bridgeToken, token) ==>
              bridgeToken == token
              || (StartsWith(authorization, BearerPrefix) && Strip(authorization[|BearerPrefix|..]) == token)
    ensures (StartsWith(authorization, BearerPrefix) && Strip(authorization[|BearerPrefix|..]) != token)
              ==> !AuthOk(authorization, token, token)
    ensures !AuthOk("", "", token)
  {
    assert (BearerPrefix + token)[|BearerPrefix|..] == token;
    var padded := BearerPrefix + " " + token + " ";
    assert padded[..|BearerPrefix|] == BearerPrefix;
    assert padded[|BearerPrefix|..] == " " + token + " ";
    StripPadded(token);
  }

  /** One space on each side of a stripped word strips away. */
  lemma StripPadded(w: string)
    requires w != [] && Strip(w) == w
    ensures Strip(" " + w + " ") == w
  {
    assert " " + w + " " == [' '] + w + [' '];
    StripByFramed(w, Whitespace, ' ');
  }

  // ---------------------------------------------------------------------------
  // the path of the request target (`urlparse(self.path).path`)

  /** First position at or after `from` holding a character of `cs`, or the
      length when there is none. */
  function FindAny(s: string, cs: set<char>, from: nat): (i: nat)
    requires from <= |s|
    ensures from <= i <= |s| && (i < |s| ==> s[i] in cs)
    ensures forall k :: from <= k < i ==> s[k] !in cs
    decreases |s| - from
  {
    if from == |s| || s[from] in cs then from else FindAny(s, cs, from + 1)
  }

  /** Position of the last `/`, or 0 when there is none. */
  function LastSlash(s: string): (i: nat)
    ensures i <= |s| && (i < |s| ==> (s[i] == '/' || (i == 0 && '/' !in s)))
    ensures forall k :: i < k < |s| ==> s[k] != '/'
  {
    if s == [] then 0
    else if s[|s| - 1] == '/' then |s| - 1
    else LastSlash(s[..|s| - 1])
  }

  /** `urlparse(target).path` for a target without a scheme: an authority
      after `//` is dropped, then the fragment, the query, and the `;`
      parameters of the last segment. */
  function UrlPath(target: string): (path: string)
    ensures '?' !in path && '#' !in path
  {
    var rest := if StartsWith(target, "//") then target[FindAny(target, {'/', '?', '#'}, 2)..] else target;
    var noFragment := rest[..FindAny(rest, {'#'}, 0)];
    var noQuery := noFragment[..FindAny(noFragment, {'?'}, 0)];
    noQuery[..FindAny(noQuery, {';'}, LastSlash(noQuery))]
  }

  /** A plain path is its own path; a query or fragment is cut off. */
  lemma UrlPathSpec(path: string, suffix: string)
    requires !StartsWith(path, "//")
    requires forall k :: 0 <= k < |path| ==> path[k] !in {'?', '#', ';'}
    requires suffix == [] || suffix[0] == '?' || suffix[0] == '#'
    ensures UrlPath(path + suffix) == path
  {
    var t := path + suffix;
    NoAuthority(path, suffix);
    assert forall k :: 0 <= k < |path| ==> t[k] == path[k];
    var j := FindAny(t, {'#'}, 0);
    assert |path| <= j;
    var noFragment := t[..j];
    assert forall k :: 0 <= k < |path| ==> noFragment[k] == path[k];
    if |path| < j {
      assert noFragment[|path|] == suffix[0] == '?';
    }
    FirstAt(noFragment, '?', |path|);
    assert noFragment[..|path|] == path;
  }

  /** A path that does not start with `//`, followed by nothing or by a
      query or fragment, does not start with `//` either. */
  lemma NoAuthority(path: string, suffix: string)
    requires !StartsWith(path, "//")
    requires forall k :: 0 <= k < |path| ==> path[k] !in {'?', '#', ';'}
    requires suffix == [] || suffix[0] == '?' || suffix[0] == '#'
    ensures !StartsWith(path + suffix, "//")
  {
    var t := path + suffix;
    if |path| >= 2 {
      assert t[..2] == path[..2];
    } else if |path| == 1 && |t| >= 2 {
      assert t[..2][1] == t[1] == suffix[0] != '/';
    } else if |t| >= 2 {
      assert t[..2][0] == suffix[0] != '/';
    }
  }

  /** The first `c` in `s` is at `n`. */
  lemma FirstAt(s: string, c: char, n: nat)
    requires n <= |s| && (n == |s| || s[n] == c)
    requires forall k :: 0 <= k < n ==> s[k] != c
    ensures FindAny(s, {c}, 0) == n
  {
  }

  // ---------------------------------------------------------------------------
  // request bodies

  /** What decoding the body bytes as UTF-8 JSON produced. */
  datatype Decoded =
    | DecodedObject(obj: Json.Object)   // a JSON object
    | DecodedOther                      // valid JSON that is not an object
    | InvalidJson                       // `json.JSONDecodeError`
    | BadUtf8(message: string)          // `UnicodeDecodeError`, a `ValueError`

  /** The body as the handler sees it: an object, or something `.get` is
      not defined on. */
  datatype Payload = Object(obj: Json.Object) | NotAnObject

  /** `read_json`: `contentLength` is the header (absent reads as "0");
      `decoded` is what the first `length` bytes of the body decode to. A
      non-positive length reads the body `{}`. Errors are the `ValueError`
      messages the handler reports. */
  function ReadJson(contentLength: Option<string>, decoded: Decoded): (r: Result<Payload>)
    ensures contentLength.None? ==> r == Ok(Object(map[]))
    ensures contentLength.Some? && PyInt(contentLength.value).Err? ==>
              r == Err(IntError(contentLength.value))
  {
    PyIntOfDigits("0");
    match PyInt(contentLength.GetOr("0"))
    case Err(e) => Err(e)
    case Ok(n) =>
      if n <= 0 then Ok(Object(map[]))
      else match decoded
        case DecodedObject(o) => Ok(Object(o))
        case DecodedOther => Ok(NotAnObject)
        case InvalidJson => Err("invalid json body")
        case BadUtf8(m) => Err(m)
  }

  /** A Content-Length that is not a number is reported with `int`'s own
      message, which quotes the header value: `Content-Length: abc` is
      answered "invalid literal for int() with base 10: 'abc'". */
  lemma ReadJsonBadLength(v: string, k: nat, decoded: Decoded)
    requires k < |v| && !IsDigit(v[k]) && !IsSpace(v[k]) && v[k] != '+' && v[k] != '-'
    requires |v| <= 198 && forall i :: 0 <= i < |v| ==> ReprPlain(v[i])
    ensures ReadJson(Some(v), decoded) == Err(IntErrorHead + "'" + v + "'")
  {
    PyIntRejects(v, k);
    IntErrorPlain(v);
  }

  /** `str(payload.get("prompt", "")).strip()` */
  function PromptOf(payload: Json.Object): string {
    Strip(Json.PyStr(if "prompt" in payload then payload["prompt"] else Json.Str("")))
  }

  // ---------------------------------------------------------------------------
  // responses

  /** A request as the handler reads it: the target and the three headers it
      consults. */
  datatype Request = Request(target: string, authorization: Option<string>,
                             bridgeToken: Option<string>, contentLength: Option<string>)

  /** A JSON response, or none when the handler raised before sending one. */
  datatype Response = Response(status: int, body: Json.Object) | NoResponse

  const OK := 200
  const ACCEPTED := 202
  const BAD_REQUEST := 400
  const UNAUTHORIZED := 401
  const NOT_FOUND := 404

  function ErrorBody(message: string): Json.Object {
    map["error" := Json.Str(message)]
  }

  predicate Authorized(req: Request, token: string) {
    AuthOk(req.authorization.GetOr(""), req.bridgeToken.GetOr(""), token)
  }

  const HealthPath: string := "/health"
  const JobsPath: string := "/jobs"
  const JobPrefix: string := "/jobs/"

  /** `do_GET`; `now` is the clock reading reported by `/health`. */
  function HandleGet(s: StoreState, req: Request, token: string, now: string): Response {
    var path := UrlPath(req.target);
    if path == HealthPath then
      var m := MetricsOf(s.jobs);
      Response(OK, map["ok" := Json.Bool(true), "time" := Json.Str(now),
                       "queued" := Json.Int(m.queued), "running" := Json.Int(m.running)])
    else if !Authorized(req, token) then Response(UNAUTHORIZED, ErrorBody("unauthorized"))
    else if StartsWith(path, JobPrefix) then
      var id := Strip(path[|JobPrefix|..]);
      if id in s.jobs then Response(OK, ToDict(s.jobs[id]))
      else Response(NOT_FOUND, ErrorBody("job not found"))
    else Response(NOT_FOUND, ErrorBody("not found"))
  }

  /** `GET /health` answers without credentials; every other GET without
      valid credentials is refused before any record is looked at; an
      authorised GET of a job's path returns its snapshot, or 404 for an
      unknown id. */
  lemma GetSpec(s: StoreState, req: Request, token: string, now: string)
    ensures var r := HandleGet(s, req, token, now);
      && r.Response?
      && (UrlPath(req.target) == HealthPath ==>
            r.status == OK && r.body["queued"] == Json.Int(MetricsOf(s.jobs).queued)
            && r.body["running"] == Json.Int(MetricsOf(s.jobs).running))
      && (UrlPath(req.target) != HealthPath && !Authorized(req, token) ==>
            r == Response(UNAUTHORIZED, ErrorBody("unauthorized")))
      && (r.status == OK && UrlPath(req.target) != HealthPath ==>
            Authorized(req, token) && exists id :: id in s.jobs && r.body == ToDict(s.jobs[id]))
      && (var path := UrlPath(req.target);
          path != HealthPath && Authorized(req, token) ==>
            if StartsWith(path, JobPrefix) then
              var id := Strip(path[|JobPrefix|..]);
              r == (if id in s.jobs then Response(OK, ToDict(s.jobs[id]))
                    else Response(NOT_FOUND, ErrorBody("job not found")))
            else r == Response(NOT_FOUND, ErrorBody("not found")))
  {
  }

  /** What `do_POST` decides before touching the store. */
  datatype PostDecision = Reject(response: Response) | Accept(prompt: string) | Crash

  const PromptRequired: string := "prompt is required"

  function PromptTooLong(maxPromptChars: int): string {
    "prompt too long (max " + IntToString(maxPromptChars) + " chars)"
  }

  /** The checks of `do_POST`, in their order: route, credentials, body,
      prompt. `body` is what `read_json` returned or raised; it is consulted
      only past the first two checks. A body that is JSON but not an object
      makes `.get` raise outside the `try`, and no response is sent. */
  function Decide(path: string, authorized: bool, body: Result<Payload>, maxPromptChars: int): PostDecision {
    if path != JobsPath then Reject(Response(NOT_FOUND, ErrorBody("not found")))
    else if !authorized then Reject(Response(UNAUTHORIZED, ErrorBody("unauthorized")))
    else match body
      case Err(e) => Reject(Response(BAD_REQUEST, ErrorBody(e)))
      case Ok(NotAnObject) => Crash
      case Ok(Object(payload)) =>
        var prompt := PromptOf(payload);
        if prompt == [] then Reject(Response(BAD_REQUEST, ErrorBody(PromptRequired)))
        else if |prompt| > maxPromptChars then Reject(Response(BAD_REQUEST, ErrorBody(PromptTooLong(maxPromptChars))))
        else Accept(prompt)
  }

  function DecidePost(req: Request, token: string, maxPromptChars: int, decoded: Decoded): PostDecision {
    Decide(UrlPath(req.target), Authorized(req, token), ReadJson(req.contentLength, decoded), maxPromptChars)
  }

  /** The 202 body for a job just created. */
  function AcceptedBody(j: Job): Json.Object {
    map["job_id" := Json.Str(j.id), "status" := Json.Str(StatusName(j.status)),
        "status_url" := Json.Str(JobPrefix + j.id), "created_at" := Json.Str(j.createdAt)]
  }

  /** `do_POST` on the store as a value, once the checks have decided: the
      response and the store after. `newId` is the fresh `uuid4` text and
      `now` the creation time. */
  function PostNext(s: StoreState, d: PostDecision, newId: string, now: string): (Response, StoreState) {
    match d
    case Reject(r) => (r, s)
    case Crash => (NoResponse, s)
    case Accept(prompt) =>
      (Response(ACCEPTED, AcceptedBody(NewJob(newId, prompt, now))), CreateNext(s, newId, prompt, now))
  }

  /** The order of the checks: unknown routes get 404 whatever the
      credentials, bad credentials get 401 before the body is read, and no
      rejection is a 202. */
  lemma DecideOrder(path: string, authorized: bool, body: Result<Payload>, maxPromptChars: int)
    ensures var d := Decide(path, authorized, body, maxPromptChars);
      && (path != JobsPath ==> d == Reject(Response(NOT_FOUND, ErrorBody("not found"))))
      && (path == JobsPath && !authorized ==> d == Reject(Response(UNAUTHORIZED, ErrorBody("unauthorized"))))
      && (d.Reject? ==> d.response.Response? && d.response.status != ACCEPTED)
  {
  }

  /** A job is accepted only on the jobs route, with credentials, and with a
      stripped prompt that is non-empty and within the limit; every such
      object body is accepted. */
  lemma DecideAccept(path: string, authorized: bool, body: Result<Payload>, maxPromptChars: int)
    ensures var d := Decide(path, authorized, body, maxPromptChars);
      && (d.Accept? ==>
            && path == JobsPath && authorized && body.Ok? && body.value.Object?
            && d.prompt == PromptOf(body.value.obj)
            && d.prompt != [] && |d.prompt| <= maxPromptChars && Strip(d.prompt) == d.prompt)
      && ((path == JobsPath && authorized && body.Ok? && body.value.Object?
            && PromptOf(body.value.obj) != [] && |PromptOf(body.value.obj)| <= maxPromptChars)
          ==> d.Accept?)
  {
    if body.Ok? && body.value.Object? {
      var payload := body.value.obj;
      StripIdempotent(Json.PyStr(if "prompt" in payload then payload["prompt"] else Json.Str("")));
    }
  }

  /** A POST changes the store exactly when it is answered 202, and then by
      one new queued job under the fresh id holding the accepted prompt; the
      reply names the job, its status and where to poll it. */
  lemma PostSpec(s: StoreState, d: PostDecision, newId: string, now: string)
    requires newId !in s.jobs
    requires d.Reject? ==> d.response.Response? && d.response.status != ACCEPTED
    ensures var (r, s') := PostNext(s, d, newId, now);
      && ((r.Response? && r.status == ACCEPTED) <==> s' != s)
      && (s' != s <==> d.Accept?)
      && (d.Accept? ==>
            && s' == CreateNext(s, newId, d.prompt, now)
            && r.body["job_id"] == Json.Str(newId) && r.body["status"] == Json.Str("queued")
            && r.body["status_url"] == Json.Str(JobPrefix + newId) && r.body["created_at"] == Json.Str(now))
  {
    if d.Accept? {
      assert newId in CreateNext(s, newId, d.prompt, now).jobs;
    }
  }

  /** A POST keeps the store valid. */
  lemma PostPreservesValid(s: StoreState, d: PostDecision, newId: string, now: string)
    requires Valid(s) && newId !in s.jobs
    ensures Valid(PostNext(s, d, newId, now).1)
  {
    if d.Accept? {
      CreatePreservesValid(s, newId, d.prompt, now);
    }
  }

  /** The text of a `uuid4`: hexadecimal digits and dashes. */
  predicate IsUuidText(id: string) {
    id != [] && forall k :: 0 <= k < |id| ==> IsUuidChar(id[k])
  }

  predicate IsUuidChar(c: char) {
    IsDigit(c) || ('a' <= c <= 'f') || c == '-'
  }

  /** The `status_url` of a job is a path the GET route maps back to its id. */
  lemma StatusUrlRoutes(id: string)
    requires IsUuidText(id)
    ensures var path := JobPrefix + id;
      && UrlPath(path) == path && path != HealthPath
      && StartsWith(path, JobPrefix) && Strip(path[|JobPrefix|..]) == id
  {
    var path := JobPrefix + id;
    StatusUrlIsPlain(id);
    UrlPathSpec(path, []);
    assert path + [] == path;
    assert path[..|JobPrefix|] == JobPrefix;
    assert path[|JobPrefix|..] == id;
    UuidStripped(id);
  }

  lemma UuidStripped(id: string)
    requires IsUuidText(id)
    ensures Strip(id) == id
  {
    assert id[0] !in Whitespace && id[|id| - 1] !in Whitespace;
    StripByFramedless(id, Whitespace);
  }

  lemma StatusUrlIsPlain(id: string)
    requires IsUuidText(id)
    ensures var path := JobPrefix + id;
      && !StartsWith(path, "//")
      && forall k :: 0 <= k < |path| ==> path[k] !in {'?', '#', ';'}
  {
    var path := JobPrefix + id;
    assert path[1] == 'j';
    forall k | 0 <= k < |path| ensures path[k] !in {'?', '#', ';'} {
      if k >= |JobPrefix| {
        assert path[k] == id[k - |JobPrefix|];
      }
    }
  }

  /** Polling the `status_url` of an accepted job, with the same credentials
      and before the worker takes it, returns its queued snapshot. */
  lemma PostThenGet(s: StoreState, req: Request, token: string, maxPromptChars: int, decoded: Decoded,
                    newId: string, now: string, later: string)
    requires newId !in s.jobs && IsUuidText(newId)
    requires DecidePost(req, token, maxPromptChars, decoded).Accept?
    ensures var s' := PostNext(s, DecidePost(req, token, maxPromptChars, decoded), newId, now).1;
      && HandleGet(s', req.(target := JobPrefix + newId), token, later) == Response(OK, ToDict(s'.jobs[newId]))
      && s'.jobs[newId].status == Queued
  {
    DecideAccept(UrlPath(req.target), Authorized(req, token), ReadJson(req.contentLength, decoded), maxPromptChars);
    StatusUrlRoutes(newId);
  }

  /** `do_POST` against the store object. */
  method HandlePost(store: Store, req: Request, token: string, maxPromptChars: int, decoded: Decoded,
                    newId: string, now: string) returns (response: Response)
    requires newId !in store.jobs
    modifies store
    ensures (response, store.State())
         == PostNext(old(store.State()), DecidePost(req, token, maxPromptChars, decoded), newId, now)
  {
    match DecidePost(req, token, maxPromptChars, decoded)
    case Reject(r) =>
      response := r;
    case Crash =>
      response := NoResponse;
    case Accept(prompt) =>
      var job := store.Create(newId, prompt, now);
      response := Response(ACCEPTED, AcceptedBody(job));
  }
}
