/**
  The admin-proxy edge function: a reverse proxy that forwards each request
  to the Supabase backend with the service-role credential, and relays the
  backend's answer with fixed CORS headers.

  The handler is a decision over the startup configuration, the inbound
  request and the backend's answer. `fetch` is the parameter `upstream`, a
  function from the outbound request to its outcome.
 */
module AdminProxy {
  import opened Wrappers
  import opened Fetch

  // ----------------------------------------------------------------------
  // Startup configuration
  // ----------------------------------------------------------------------

  /** The environment variables read at startup; `None` when a variable is unset. */
  datatype Env = Env(
    supabaseUrl: Option<string>,
    serviceRoleKey: Option<string>,
    supabaseServiceRoleKey: Option<string>)

  /** The backend origin and the service key injected into every forwarded call. */
  datatype Config = Config(origin: string, key: string)

  /** Which of the two startup checks throws. */
  datatype StartupError = UrlNotSet | KeyNotSet

  /** JavaScript truthiness of a string that may be undefined: set and non-empty. */
  predicate Truthy(v: Option<string>)
  {
    v.Some? && v.value != ""
  }

  /** `SERVICE_ROLE_KEY ?? SUPABASE_SERVICE_ROLE_KEY`: `??` skips only an unset value. */
  function ChosenKey(env: Env): Option<string>
  {
    if env.serviceRoleKey.Some? then env.serviceRoleKey else env.supabaseServiceRoleKey
  }

  /** Module initialisation: the configuration, or the check that refuses to start. */
  function Startup(env: Env): Result<Config, StartupError>
  {
    if !Truthy(env.supabaseUrl) then Err(UrlNotSet)
    else if !Truthy(ChosenKey(env)) then Err(KeyNotSet)
    else Ok(Config(env.supabaseUrl.value, ChosenKey(env).value))
  }

  /** Startup succeeds exactly when the origin and the chosen key are both non-empty, and then uses them. */
  lemma StartupOkIff(env: Env)
    ensures Startup(env).Ok? <==>
              env.supabaseUrl.Some? && env.supabaseUrl.value != "" &&
              (if env.serviceRoleKey.Some? then env.serviceRoleKey.value != ""
               else env.supabaseServiceRoleKey.Some? && env.supabaseServiceRoleKey.value != "")
    ensures Startup(env).Ok? ==>
              && Startup(env).value.origin == env.supabaseUrl.value
              && Startup(env).value.origin != ""
              && Startup(env).value.key != ""
              && Startup(env).value.key ==
                   (if env.serviceRoleKey.Some? then env.serviceRoleKey.value
                    else env.supabaseServiceRoleKey.value)
  {
  }

  /** The origin is checked first: an unset or empty `SUPABASE_URL` is reported whatever the keys are. */
  lemma StartupChecksUrlFirst(env: Env)
    requires env.supabaseUrl.None? || env.supabaseUrl == Some("")
    ensures Startup(env) == Err(UrlNotSet)
  {
  }

  /** Once `SERVICE_ROLE_KEY` is set, the fallback variable has no influence at all. */
  lemma FallbackIgnoredWhenPrimarySet(env: Env, fallback: Option<string>)
    requires env.serviceRoleKey.Some?
    ensures Startup(env) == Startup(env.(supabaseServiceRoleKey := fallback))
  {
  }

  /** A present but empty `SERVICE_ROLE_KEY` refuses startup even when the fallback holds a key. */
  lemma EmptyPrimaryKeyRefused(env: Env)
    requires Truthy(env.supabaseUrl) && env.serviceRoleKey == Some("")
    ensures Startup(env) == Err(KeyNotSet)
  {
  }

  /** With `SERVICE_ROLE_KEY` unset, the fallback key is used. */
  lemma FallbackUsedWhenPrimaryUnset(env: Env)
    requires Truthy(env.supabaseUrl) && env.serviceRoleKey.None?
    ensures Truthy(env.supabaseServiceRoleKey) ==>
              Startup(env) == Ok(Config(env.supabaseUrl.value, env.supabaseServiceRoleKey.value))
    ensures !Truthy(env.supabaseServiceRoleKey) ==> Startup(env) == Err(KeyNotSet)
  {
  }

  // ----------------------------------------------------------------------
  // Requests, the backend and responses
  // ----------------------------------------------------------------------

  /** `new URL(req.url)` either throws, or yields the `path` query parameter if there is one. */
  datatype UrlQuery = Unparsable(message: string) | Query(path: Option<string>)

  /** What `req.text()` finds: no body (read as ""), a text, or a stream that fails. */
  datatype Body = Absent | Present(text: string) | Unreadable(message: string)

  /** The inbound request; `headers` are the pairs in the order `headers.forEach` visits them. */
  datatype Request = Request(verb: string, url: UrlQuery, headers: seq<Header>, body: Body)

  /** The call made to the backend: target URL, method, header record and optional body. */
  datatype Outbound = Outbound(url: string, verb: string, headers: map<string, string>, body: Option<string>)

  /**
    What the backend call comes to: a reply (status, the `Content-Type` header
    if any, the body text), or a failure of `fetch` or of reading the reply.
   */
  datatype Outcome = Replied(status: int, contentType: Option<string>, text: string) | Failed(message: string)

  /** The CORS headers, in the order of the `corsHeaders` record. */
  const CorsHeaders: seq<Header> := [
    ("Access-Control-Allow-Origin", "https://m3dkzn.github.io"),
    ("Access-Control-Allow-Headers", "authorization, x-client-info, apikey, content-type"),
    ("Access-Control-Allow-Methods", "GET,POST,PATCH,DELETE,OPTIONS")
  ]

  /** `{ ...corsHeaders, "Content-Type": "application/json" }`. */
  const JsonHeaders: seq<Header> := CorsHeaders + [("Content-Type", "application/json")]

  /** No CORS header is called `Content-Type`, in any letter case. */
  lemma CorsLacksContentType()
    ensures forall i :: 0 <= i < |CorsHeaders| ==> Lower(CorsHeaders[i].0) != Lower("Content-Type")
    ensures !HasName(CorsHeaders, "Content-Type")
  {
    forall i | 0 <= i < |CorsHeaders| ensures Lower(CorsHeaders[i].0) != Lower("Content-Type") {
      assert Lower(CorsHeaders[i].0)[0] != Lower("Content-Type")[0];
    }
  }

  /** The JSON headers carry a `Content-Type`. */
  lemma JsonHasContentType()
    ensures HasName(JsonHeaders, "Content-Type")
  {
    assert NameMatches(JsonHeaders[3].0, "Content-Type");
  }

  /**
    The answer to a preflight request: the constructor adds the string body's
    content type, since the CORS headers have none.
   */
  const Preflight: Response := Response(200, CorsHeaders + [("Content-Type", TextPlain)], Text("ok"))

  /** The answer to a request without a usable `path`. */
  const MissingPath: Response := Response(400, JsonHeaders, ErrorJson(Said("Missing path query parameter")))

  /** The answer when anything inside the `try` block throws. */
  function Failure(e: ErrorText): Response
  {
    Response(500, JsonHeaders, ErrorJson(e))
  }

  /** The three fixed responses pass the `Response` constructor's checks, so building them never throws. */
  lemma FixedResponsesConstruct(e: ErrorText)
    ensures NewResponse(Text("ok"), 200, CorsHeaders) == Ok(Preflight)
    ensures NewResponse(ErrorJson(Said("Missing path query parameter")), 400, JsonHeaders) == Ok(MissingPath)
    ensures NewResponse(ErrorJson(e), 500, JsonHeaders) == Ok(Failure(e))
  {
    CorsLacksContentType();
    JsonHasContentType();
  }

  // ----------------------------------------------------------------------
  // Target URL
  // ----------------------------------------------------------------------

  /** `path.startsWith("http")`: a literal four-character prefix, not a scheme check. */
  predicate StartsWithHttp(path: string)
  {
    |path| >= 4 && path[..4] == "http"
  }

  /** The URL the request is forwarded to. */
  function TargetUrl(origin: string, path: string): string
  {
    if StartsWithHttp(path) then path else origin + path
  }

  /** A path that begins with "http" is used as the whole target. */
  lemma AbsolutePathPassesThrough(origin: string, rest: string)
    ensures TargetUrl(origin, "http" + rest) == "http" + rest
  {
    assert ("http" + rest)[..4] == "http";
  }

  /** Any other path is appended to the origin. */
  lemma RelativePathJoinsOrigin(origin: string, path: string)
    requires forall rest :: path != "http" + rest
    ensures TargetUrl(origin, path) == origin + path
  {
    HttpPrefixSplits(path);
  }

  /** A path with the "http" prefix is "http" followed by the rest. */
  lemma HttpPrefixSplits(path: string)
    ensures StartsWithHttp(path) ==> path == "http" + path[4..]
  {
  }

  /** The target always ends with the path; it equals the path exactly when the path is absolute or the origin is empty. */
  lemma TargetUrlShape(origin: string, path: string)
    ensures var t := TargetUrl(origin, path);
            |t| >= |path| && t[|t| - |path|..] == path &&
            (t[..|t| - |path|] == origin || t[..|t| - |path|] == "")
    ensures TargetUrl(origin, path) == path <==> StartsWithHttp(path) || origin == ""
  {
    var t := TargetUrl(origin, path);
    if !StartsWithHttp(path) {
      assert t[..|origin|] == origin && t[|origin|..] == path;
      if t == path { assert |origin| == 0; }
    }
  }

  /** The prefix test is literal: "httpx/..." counts as absolute too. */
  lemma HttpPrefixIsLiteral(origin: string)
    ensures TargetUrl(origin, "httpx/items") == "httpx/items"
    ensures TargetUrl(origin, "/rest/v1/items") == origin + "/rest/v1/items"
  {
    AbsolutePathPassesThrough(origin, "x/items");
    assert "/rest/v1/items"[..4] != "http" by { assert "/rest/v1/items"[0] == '/'; }
  }

  // ----------------------------------------------------------------------
  // Forwarded headers
  // ----------------------------------------------------------------------

  /** `["content-length"].includes(name.toLowerCase())`. */
  predicate IsContentLength(name: string)
  {
    Lower(name) == "content-length"
  }

  /** No pair after index `i` has the same name, so pair `i` is the one the copy keeps. */
  predicate LastNamed(pairs: seq<Header>, i: int)
    requires 0 <= i < |pairs|
  {
    forall j :: i < j < |pairs| ==> pairs[j].0 != pairs[i].0
  }

  /** The record the `forEach` loop builds from the pairs visited so far: a later pair overwrites an earlier one of the same name. */
  function Copied(pairs: seq<Header>): (m: map<string, string>)
    ensures forall k :: k in m ==> !IsContentLength(k)
  {
    if pairs == [] then map[]
    else
      var m := Copied(pairs[..|pairs| - 1]);
      var last := pairs[|pairs| - 1];
      if IsContentLength(last.0) then m else m[last.0 := last.1]
  }

  /** A name is in the copy exactly when some inbound pair has it and it is not `content-length` in any case. */
  lemma {:induction false} CopiedKeys(pairs: seq<Header>, k: string)
    ensures k in Copied(pairs) <==> !IsContentLength(k) && exists i :: 0 <= i < |pairs| && pairs[i].0 == k
  {
    if pairs != [] {
      var n := |pairs| - 1;
      var init := pairs[..n];
      CopiedKeys(init, k);
      if exists i :: 0 <= i < |init| && init[i].0 == k {
        var i :| 0 <= i < |init| && init[i].0 == k;
        assert pairs[i] == init[i];
      }
      if exists i :: 0 <= i < |pairs| && pairs[i].0 == k {
        var i :| 0 <= i < |pairs| && pairs[i].0 == k;
        if i < n { assert init[i] == pairs[i]; }
      }
    }
  }

  /** The copy holds the value of the last inbound pair of each name it keeps. */
  lemma {:induction false} CopiedValue(pairs: seq<Header>, i: int)
    requires 0 <= i < |pairs| && LastNamed(pairs, i) && !IsContentLength(pairs[i].0)
    ensures pairs[i].0 in Copied(pairs) && Copied(pairs)[pairs[i].0] == pairs[i].1
  {
    var n := |pairs| - 1;
    if i < n {
      var init := pairs[..n];
      assert init[i] == pairs[i];
      assert LastNamed(init, i) by {
        forall j | i < j < |init| ensures init[j].0 != init[i].0 {
          assert init[j] == pairs[j];
        }
      }
      CopiedValue(init, i);
      assert pairs[n].0 != pairs[i].0;
    }
  }

  /** The credential entries written after the loop. */
  function Inject(record: map<string, string>, key: string): map<string, string>
  {
    record["apikey" := key]["Authorization" := "Bearer " + key]
  }

  /** The header record handed to `fetch`. */
  function ForwardHeaders(inbound: seq<Header>, key: string): map<string, string>
  {
    Inject(Copied(inbound), key)
  }

  /** Injection sets the two credential entries and leaves every other entry as it was. */
  lemma InjectOnlyTouchesCredentials(record: map<string, string>, key: string)
    ensures "apikey" in Inject(record, key) && Inject(record, key)["apikey"] == key
    ensures "Authorization" in Inject(record, key) && Inject(record, key)["Authorization"] == "Bearer " + key
    ensures Inject(record, key).Keys == record.Keys + {"apikey", "Authorization"}
    ensures forall k :: k in record && k != "apikey" && k != "Authorization" ==>
              Inject(record, key)[k] == record[k]
  {
  }

  /** Whatever the inbound headers, the forwarded record carries the configured credential. */
  lemma ForwardedCredentials(inbound: seq<Header>, key: string)
    ensures var fwd := ForwardHeaders(inbound, key);
            "apikey" in fwd && fwd["apikey"] == key &&
            "Authorization" in fwd && fwd["Authorization"] == "Bearer " + key
  {
  }

  /** No forwarded name is `content-length` in any letter case. */
  lemma ForwardedNoContentLength(inbound: seq<Header>, key: string)
    ensures forall k :: k in ForwardHeaders(inbound, key) ==> !IsContentLength(k)
  {
    CredentialNamesNotContentLength();
  }

  /** Neither injected name is `content-length`: their lengths differ. */
  lemma CredentialNamesNotContentLength()
    ensures !IsContentLength("apikey") && !IsContentLength("Authorization")
  {
    assert |Lower("apikey")| == 6;
    assert |Lower("Authorization")| == 13;
  }

  /** The forwarded names are the two credential names plus every inbound name that is not `content-length`. */
  lemma ForwardedKeys(inbound: seq<Header>, key: string, k: string)
    ensures k in ForwardHeaders(inbound, key) <==>
              k == "apikey" || k == "Authorization" ||
              (!IsContentLength(k) && exists i :: 0 <= i < |inbound| && inbound[i].0 == k)
  {
    CopiedKeys(inbound, k);
  }

  /** An inbound pair reaches the backend with its value unchanged unless a later pair or the injection replaces it. */
  lemma ForwardedKeepsInbound(inbound: seq<Header>, key: string, i: int)
    requires 0 <= i < |inbound| && LastNamed(inbound, i) && !IsContentLength(inbound[i].0)
    requires inbound[i].0 != "apikey" && inbound[i].0 != "Authorization"
    ensures inbound[i].0 in ForwardHeaders(inbound, key)
    ensures ForwardHeaders(inbound, key)[inbound[i].0] == inbound[i].1
  {
    CopiedValue(inbound, i);
  }

  /** Header names as `Headers.forEach` yields them: lowercased. */
  predicate IteratedForm(pairs: seq<Header>)
  {
    forall i :: 0 <= i < |pairs| ==> Lower(pairs[i].0) == pairs[i].0
  }

  /**
    With names as `forEach` yields them, no inbound pair is called
    "Authorization", so an inbound `authorization` entry is forwarded next
    to the injected `Authorization` entry instead of being overwritten.
   */
  lemma LowercaseAuthorizationSurvives(inbound: seq<Header>, key: string, i: int)
    requires IteratedForm(inbound)
    requires 0 <= i < |inbound| && inbound[i].0 == "authorization" && LastNamed(inbound, i)
    ensures "Authorization" !in Copied(inbound)
    ensures var fwd := ForwardHeaders(inbound, key);
            && "authorization" in fwd && fwd["authorization"] == inbound[i].1
            && "Authorization" in fwd && fwd["Authorization"] == "Bearer " + key
  {
    IteratedCopyLacksAuthorization(inbound);
    LowercaseAuthorizationCopied(inbound, i);
    InjectOnlyTouchesCredentials(Copied(inbound), key);
  }

  /** Copying lowercase names never creates an "Authorization" entry. */
  lemma IteratedCopyLacksAuthorization(inbound: seq<Header>)
    requires IteratedForm(inbound)
    ensures "Authorization" !in Copied(inbound)
  {
    AuthorizationNameFacts();
    IteratedFormLacks(inbound, "Authorization");
    CopiedKeys(inbound, "Authorization");
  }

  /** The last inbound `authorization` pair is in the copy, under a name distinct from both injected ones. */
  lemma LowercaseAuthorizationCopied(inbound: seq<Header>, i: int)
    requires 0 <= i < |inbound| && inbound[i].0 == "authorization" && LastNamed(inbound, i)
    ensures "authorization" in Copied(inbound) && Copied(inbound)["authorization"] == inbound[i].1
    ensures "authorization" != "Authorization" && "authorization" != "apikey"
  {
    AuthorizationNameFacts();
    CopiedValue(inbound, i);
  }

  /** "authorization" is neither `content-length` nor an injected name, and "Authorization" is not in lowercase form. */
  lemma AuthorizationNameFacts()
    ensures !IsContentLength("authorization")
    ensures "authorization" != "Authorization" && "authorization" != "apikey"
    ensures Lower("Authorization") != "Authorization"
  {
    assert |Lower("authorization")| == 13;
    assert "authorization"[0] != "Authorization"[0];
    assert Lower("Authorization")[0] == 'a';
  }

  /** A name that is not its own lowercase form never occurs among iterated names. */
  lemma IteratedFormLacks(pairs: seq<Header>, name: string)
    requires IteratedForm(pairs) && Lower(name) != name
    ensures forall j :: 0 <= j < |pairs| ==> pairs[j].0 != name
  {
  }

  /**
    Builds the forwarded header record as lines 37-45 do: a loop copies every
    pair except `content-length`, then the credential entries are written.
   */
  method BuildForwardHeaders(inbound: seq<Header>, key: string) returns (fwd: map<string, string>)
    ensures fwd == ForwardHeaders(inbound, key)
  {
    fwd := map[];
    var i := 0;
    while i < |inbound|
      invariant 0 <= i <= |inbound|
      invariant fwd == Copied(inbound[..i])
    {
      var (name, value) := inbound[i];
      assert inbound[..i + 1][..i] == inbound[..i];
      if !IsContentLength(name) {
        fwd := fwd[name := value];
      }
      i := i + 1;
    }
    assert inbound[..i] == inbound;
    fwd := fwd["apikey" := key];
    fwd := fwd["Authorization" := "Bearer " + key];
  }

  // ----------------------------------------------------------------------
  // Body selection
  // ----------------------------------------------------------------------

  /** `req.text()`: an absent body reads as the empty text. */
  function ReadText(body: Body): Result<string, string>
  {
    match body
    case Absent => Ok("")
    case Present(text) => Ok(text)
    case Unreadable(message) => Err(message)
  }

  /** GET and HEAD send no body and never read the inbound one; other methods send the inbound text. */
  function SelectBody(verb: string, body: Body): Result<Option<string>, string>
  {
    if verb == "GET" || verb == "HEAD" then Ok(None)
    else
      match ReadText(body)
      case Ok(text) => Ok(Some(text))
      case Err(message) => Err(message)
  }

  /** A body goes upstream exactly for the other methods, and it is the inbound text; a failed read is the only error. */
  lemma SelectBodyRule(verb: string, body: Body)
    ensures (verb == "GET" || verb == "HEAD") <==> SelectBody(verb, body) == Ok(None)
    ensures SelectBody(verb, body).Err? <==>
              verb != "GET" && verb != "HEAD" && body.Unreadable?
    ensures SelectBody(verb, body).Err? ==> SelectBody(verb, body).error == body.message
    ensures SelectBody(verb, body).Ok? && SelectBody(verb, body).value.Some? ==>
              SelectBody(verb, body).value == Some(if body.Present? then body.text else "")
  {
  }

  // ----------------------------------------------------------------------
  // Relaying the backend's answer
  // ----------------------------------------------------------------------

  /** `new Headers(corsHeaders)`, then `set("Content-Type", …)` when the backend's content type is non-empty. */
  function RelayHeaders(contentType: Option<string>): seq<Header>
  {
    if Truthy(contentType) then HeaderSet(CorsHeaders, "Content-Type", contentType.value)
    else CorsHeaders
  }

  /** None of the CORS names is `Content-Type` in any case, so setting it appends one entry after them. */
  lemma RelayHeadersShape(contentType: Option<string>)
    ensures RelayHeaders(contentType) ==
              CorsHeaders + (if Truthy(contentType) then [("Content-Type", contentType.value)] else [])
  {
    if Truthy(contentType) {
      CorsLacksContentType();
      HeaderSetAppends(CorsHeaders, "Content-Type", contentType.value);
    }
  }

  /**
    Lines 55-63 as written: the reply's text is always given to the
    `Response` constructor, so a status that forbids a body makes it throw,
    and the `catch` turns the reply into a 500.
   */
  function RelayAsWritten(outcome: Outcome): Response
  {
    match outcome
    case Failed(message) => Failure(Said(message))
    case Replied(status, contentType, text) =>
      match NewResponse(Text(text), status, RelayHeaders(contentType))
      case Ok(response) => response
      case Err(e) => Failure(e)
  }

  /** As written, a 204, 205 or 304 reply is answered with 500, not with the backend's status. */
  lemma NullBodyReplyFailsAsWritten(status: int, contentType: Option<string>, text: string)
    requires status == 204 || status == 205 || status == 304
    ensures RelayAsWritten(Replied(status, contentType, text)) == Failure(BodyWithNullBodyStatus(status))
    ensures RelayAsWritten(Replied(status, contentType, text)).status == 500 != status
  {
  }

  /** The relay step with the body left out for statuses that forbid one. */
  function Relay(outcome: Outcome): Response
  {
    match outcome
    case Failed(message) => Failure(Said(message))
    case Replied(status, contentType, text) =>
      var body := if NullBodyStatus(status) then Null else Text(text);
      match NewResponse(body, status, RelayHeaders(contentType))
      case Ok(response) => response
      case Err(e) => Failure(e)
  }

  /**
    A reply with a valid status is mirrored: its status, its body (none where
    forbidden) and the CORS headers, followed by its non-empty content type or,
    failing that, the constructor's `text/plain` for a body.
   */
  lemma RelayMirrorsReply(status: int, contentType: Option<string>, text: string)
    requires 200 <= status <= 599
    ensures Relay(Replied(status, contentType, text)) ==
              Response(status,
                       CorsHeaders +
                         (if Truthy(contentType) then [("Content-Type", contentType.value)]
                          else if NullBodyStatus(status) then []
                          else [("Content-Type", TextPlain)]),
                       if NullBodyStatus(status) then Null else Text(text))
  {
    RelayHeadersShape(contentType);
    CorsLacksContentType();
    if Truthy(contentType) {
      assert NameMatches(RelayHeaders(contentType)[3].0, "Content-Type");
    }
  }

  /** A status the `Response` constructor rejects, or a failed call, becomes a 500 JSON error. */
  lemma RelayFailures(outcome: Outcome)
    requires outcome.Failed? || outcome.status < 200 || outcome.status > 599
    ensures Relay(outcome) ==
              Failure(if outcome.Failed? then Said(outcome.message) else StatusOutOfRange(outcome.status))
  {
  }

  /** The correction changes nothing for replies whose status allows a body. */
  lemma RelayAgreesWithAsWritten(outcome: Outcome)
    requires outcome.Replied? ==> !NullBodyStatus(outcome.status)
    ensures Relay(outcome) == RelayAsWritten(outcome)
  {
  }

  /** Builds the outgoing response from the backend's answer, setting `Content-Type` on the CORS header list. */
  method BuildResponse(outcome: Outcome) returns (resp: Response)
    ensures resp == Relay(outcome)
  {
    match outcome {
      case Failed(message) =>
        resp := Failure(Said(message));
      case Replied(status, contentType, text) =>
        var headers := CorsHeaders;
        if Truthy(contentType) {
          headers := HeaderSet(headers, "Content-Type", contentType.value);
        }
        var body := if NullBodyStatus(status) then Null else Text(text);
        var built := NewResponse(body, status, headers);
        resp := if built.Ok? then built.value else Failure(built.error);
    }
  }

  // ----------------------------------------------------------------------
  // The handler
  // ----------------------------------------------------------------------

  /**
    The response to `req`, and the backend call made for it (`None` when the
    backend is not called).
   */
  function Respond(config: Config, req: Request, upstream: Outbound -> Outcome): (Response, Option<Outbound>)
  {
    if req.verb == "OPTIONS" then (Preflight, None)
    else
      match req.url
      case Unparsable(message) => (Failure(Said(message)), None)
      case Query(path) =>
        if !Truthy(path) then (MissingPath, None)
        else
          match SelectBody(req.verb, req.body)
          case Err(message) => (Failure(Said(message)), None)
          case Ok(body) =>
            var out := Outbound(TargetUrl(config.origin, path.value), req.verb,
                                ForwardHeaders(req.headers, config.key), body);
            (Relay(upstream(out)), Some(out))
  }

  /** A preflight request is answered with 200 "ok", the CORS headers and the string body's content type, without calling the backend. */
  lemma PreflightShortCircuit(config: Config, req: Request, upstream: Outbound -> Outcome)
    requires req.verb == "OPTIONS"
    ensures Respond(config, req, upstream) ==
              (Response(200, CorsHeaders + [("Content-Type", "text/plain;charset=UTF-8")], Text("ok")), None)
  {
  }

  /** Without a non-empty `path` the answer is the 400 JSON error, without calling the backend. */
  lemma MissingPathRejected(config: Config, req: Request, upstream: Outbound -> Outcome)
    requires req.verb != "OPTIONS"
    requires req.url == Query(None) || req.url == Query(Some(""))
    ensures Respond(config, req, upstream) ==
              (Response(400, CorsHeaders + [("Content-Type", "application/json")],
                        ErrorJson(Said("Missing path query parameter"))), None)
  {
  }

  /** The backend is called exactly for a non-preflight request with a parsable URL, a non-empty path and a readable body where one is needed. */
  lemma UpstreamCalledIff(config: Config, req: Request, upstream: Outbound -> Outcome)
    ensures Respond(config, req, upstream).1.Some? <==>
              && req.verb != "OPTIONS"
              && req.url.Query? && req.url.path.Some? && req.url.path.value != ""
              && (req.verb == "GET" || req.verb == "HEAD" || !req.body.Unreadable?)
  {
  }

  /** The call made upstream: target by the prefix rule, same method, rewritten headers, no body for GET and HEAD and the inbound text otherwise; the answer is the relayed outcome. */
  lemma ForwardedRequest(config: Config, req: Request, upstream: Outbound -> Outcome)
    requires Respond(config, req, upstream).1.Some?
    ensures var out := Respond(config, req, upstream).1.value;
            && out.url == TargetUrl(config.origin, req.url.path.value)
            && out.verb == req.verb
            && out.headers == ForwardHeaders(req.headers, config.key)
            && "apikey" in out.headers && out.headers["apikey"] == config.key
            && "Authorization" in out.headers && out.headers["Authorization"] == "Bearer " + config.key
            && (forall k :: k in out.headers ==> !IsContentLength(k))
            && (out.body.None? <==> req.verb == "GET" || req.verb == "HEAD")
            && (req.verb != "GET" && req.verb != "HEAD" ==>
                  out.body == Some(if req.body.Present? then req.body.text else ""))
            && Respond(config, req, upstream).0 == Relay(upstream(out))
  {
    ForwardedCredentials(req.headers, config.key);
    ForwardedNoContentLength(req.headers, config.key);
  }

  /** Every failure after the preflight check (bad URL, unreadable body, failed call) is a 500 JSON error carrying the message. */
  lemma FailuresAre500(config: Config, req: Request, upstream: Outbound -> Outcome)
    requires req.verb != "OPTIONS"
    ensures req.url.Unparsable? ==>
              Respond(config, req, upstream) == (Failure(Said(req.url.message)), None)
    ensures req.url.Query? && Truthy(req.url.path) && req.verb != "GET" && req.verb != "HEAD" &&
            req.body.Unreadable? ==>
              Respond(config, req, upstream) == (Failure(Said(req.body.message)), None)
    ensures Respond(config, req, upstream).1.Some? &&
            upstream(Respond(config, req, upstream).1.value).Failed? ==>
              Respond(config, req, upstream).0 ==
                Response(500, CorsHeaders + [("Content-Type", "application/json")],
                         ErrorJson(Said(upstream(Respond(config, req, upstream).1.value).message)))
  {
  }

  /** Every answer, error or not, starts with the three CORS headers. */
  lemma CorsOnEveryResponse(config: Config, req: Request, upstream: Outbound -> Outcome)
    ensures var headers := Respond(config, req, upstream).0.headers;
            |headers| >= 3 && headers[..3] == CorsHeaders
  {
    var (resp, sent) := Respond(config, req, upstream);
    if sent.Some? && upstream(sent.value).Replied? {
      RelayHeadersShape(upstream(sent.value).contentType);
    }
  }

  /** For GET and HEAD the inbound body is never read: the answer and the call do not depend on it. */
  lemma ReadOnlyMethodsIgnoreBody(config: Config, req: Request, upstream: Outbound -> Outcome, other: Body)
    requires req.verb == "GET" || req.verb == "HEAD"
    ensures Respond(config, req, upstream) == Respond(config, req.(body := other), upstream)
  {
  }

  /** A GET of a relative path against a 200 JSON reply is relayed with its status, body and content type. */
  lemma RelativeGetScenario(key: string, headers: seq<Header>, body: Body, upstream: Outbound -> Outcome)
    requires forall out :: upstream(out) == Replied(200, Some("application/json"), "{\"items\":[]}")
    ensures var config := Config("https://api.example.com", key);
            var req := Request("GET", Query(Some("/rest/v1/items")), headers, body);
            var (resp, sent) := Respond(config, req, upstream);
            && sent.Some? && sent.value.url == "https://api.example.com" + "/rest/v1/items"
            && sent.value.body == None
            && resp == Response(200, CorsHeaders + [("Content-Type", "application/json")],
                                Text("{\"items\":[]}"))
  {
    var config := Config("https://api.example.com", key);
    var req := Request("GET", Query(Some("/rest/v1/items")), headers, body);
    HttpPrefixIsLiteral(config.origin);
    var out := Outbound(config.origin + "/rest/v1/items", "GET", ForwardHeaders(headers, key), None);
    assert Respond(config, req, upstream) == (Relay(upstream(out)), Some(out));
    RelayMirrorsReply(200, Some("application/json"), "{\"items\":[]}");
  }

  /**
    The `serve` callback: answers `req`, calling the backend through
    `upstream` at most once, and reports the call it made.
   */
  method Handle(config: Config, req: Request, upstream: Outbound -> Outcome)
    returns (resp: Response, sent: Option<Outbound>)
    ensures (resp, sent) == Respond(config, req, upstream)
  {
    if req.verb == "OPTIONS" {
      return Preflight, None;
    }
    sent := None;
    match req.url {
      case Unparsable(message) =>
        resp := Failure(Said(message));
      case Query(path) =>
        if !Truthy(path) {
          resp := MissingPath;
          return;
        }
        var target := TargetUrl(config.origin, path.value);
        var headers := BuildForwardHeaders(req.headers, config.key);
        var body := SelectBody(req.verb, req.body);
        if body.Err? {
          resp := Failure(Said(body.error));
          return;
        }
        var out := Outbound(target, req.verb, headers, body.value);
        sent := Some(out);
        resp := BuildResponse(upstream(out));
    }
  }
}
