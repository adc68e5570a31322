# admin-proxy: a verified model of the forwarding handler

The admin-proxy edge function is a small reverse proxy. At startup it reads the backend
origin (`SUPABASE_URL`) and the service-role key (`SERVICE_ROLE_KEY`, falling back to
`SUPABASE_SERVICE_ROLE_KEY`). It refuses to start if either is unset or empty. For each request it:

- answers a CORS preflight (`OPTIONS`) at once;
- rejects a request with no `path` query parameter;
- builds the target URL from `path`;
- copies the inbound headers except `content-length`, then injects `apikey` and
  `Authorization: Bearer <key>`;
- forwards the body for methods other than GET and HEAD;
- relays the backend's status, body and content type, with fixed CORS headers attached to
  every answer.

The model is three Dafny modules:

- `Wrappers` (`wrappers.dfy`): `Option` and `Result`.
- `Fetch` (`fetch.dfy`): the parts of the WHATWG Fetch Standard the handler uses.
  - Byte-lowercasing of header names.
  - The "set" operation on a header list (section 2.2.2), which `Headers.set` performs.
  - The `Response` constructor (section 5.5). A status outside 200..599 is a
    RangeError. A non-null body with a null body status (101, 103, 204, 205, 304, section
    2.2.3) is a TypeError. Otherwise "initialize a response" keeps the status and headers, and
    appends `Content-Type: text/plain;charset=UTF-8` when the body is a string and the header
    list has no `Content-Type`.
- `AdminProxy` (`admin_proxy.dfy`): the handler itself.
  - `Startup` picks the configuration from an `Env` of optional strings.
  - `TargetUrl` applies the literal `"http"` prefix rule.
  - `BuildForwardHeaders` is a loop over the `(name, value)` pairs that `headers.forEach`
    visits. It fills a case-sensitive record, specified by `Copied` and `ForwardHeaders`.
  - `SelectBody` picks the body to send.
  - `BuildResponse` applies `Headers.set` on the CORS header list, specified by `Relay`.
  - `Handle` is the `serve` callback, specified by the function `Respond`.

`fetch` is the parameter `upstream: Outbound -> Outcome`. An `Outcome` is either a reply or a
failure message. A failure covers a throwing `fetch` and a failing `response.text()`. The other
throws in the `try` block are inputs:

- a URL that `new URL` cannot parse is `UrlQuery.Unparsable`;
- a body that `req.text()` cannot read is `Body.Unreadable`.

Both come before the backend call, so both give 500 with no call. A URL parse failure comes
before the `path` check, so it gives 500 even when `path` is missing.

Points of the code that are easy to misread:

- **Environment variables.** The code reads `SUPABASE_URL` and `SERVICE_ROLE_KEY ??
  SUPABASE_SERVICE_ROLE_KEY`, and refuses empty values as well as unset ones. A present but empty
  `SERVICE_ROLE_KEY` refuses startup even when the fallback is set.
- **Empty `path`.** A `path` that is present but empty is also a 400.
- **Inbound credentials.** Only the exact keys `apikey` and `Authorization` are overwritten.
  `forEach` yields lowercased names, so an inbound `authorization` entry stays in the record
  beside the injected `Authorization` entry.
- **Absolute paths.** The "absolute URL" test is the literal prefix `"http"`, so `httpx/...`
  passes through unchanged.
- **Content type.** It is copied only when it is non-empty, not merely present. Without it, a
  relayed body gets `text/plain;charset=UTF-8` from the `Response` constructor. The preflight
  answer gets that type too, so it carries four headers, not three.

## Model

| member | source | states |
|---|---|---|
| `Fetch.HeaderSet` | supabase/functions/admin-proxy/index.ts:58 | `Headers.set`: afterwards the name is present with the new value on every matching entry, and headers of other names are exactly the ones before |
| `Fetch.NewResponse` | supabase/functions/admin-proxy/index.ts:60-63 | `new Response(body, { status, headers })` succeeds iff the status is in 200..599 and no body accompanies a null body status, otherwise it fails with the RangeError or TypeError; on success it keeps status, body and the given headers as a prefix, adds nothing when there is no body or a `Content-Type` is given, appends exactly `Content-Type: text/plain;charset=UTF-8` to a body's headers that have none, and so leaves a `Content-Type` on every response with a body |
| `Fetch.HeaderSetAppends` | supabase/functions/admin-proxy/index.ts:58 | setting a name no header matches appends it at the end of the list |
| `AdminProxy.StartupOkIff` | supabase/functions/admin-proxy/index.ts:9-18 | startup succeeds exactly when `SUPABASE_URL` is non-empty and the `??`-chosen key is non-empty; the config then holds that origin and key, both non-empty |
| `AdminProxy.StartupChecksUrlFirst` | supabase/functions/admin-proxy/index.ts:12-14 | an unset or empty `SUPABASE_URL` is the reported error whatever the keys are |
| `AdminProxy.FallbackIgnoredWhenPrimarySet` | supabase/functions/admin-proxy/index.ts:10 | once `SERVICE_ROLE_KEY` is set (even to ""), changing the fallback variable cannot change the startup result |
| `AdminProxy.EmptyPrimaryKeyRefused` | supabase/functions/admin-proxy/index.ts:10-18 | a present but empty `SERVICE_ROLE_KEY` refuses startup with the key error, even with a fallback set |
| `AdminProxy.FallbackUsedWhenPrimaryUnset` | supabase/functions/admin-proxy/index.ts:10-18 | with `SERVICE_ROLE_KEY` unset, a non-empty fallback becomes the key, and an unset or empty one refuses startup |
| `AdminProxy.FixedResponsesConstruct` | supabase/functions/admin-proxy/index.ts:22-69 | the `Response` constructor builds exactly the preflight (200, with `text/plain;charset=UTF-8` added), missing-path (400) and failure (500) responses, so building them never throws |
| `AdminProxy.CorsLacksContentType` | supabase/functions/admin-proxy/index.ts:3-7 | no CORS header is named `Content-Type` in any letter case |
| `AdminProxy.AbsolutePathPassesThrough` | supabase/functions/admin-proxy/index.ts:35 | any path of the form `"http" + rest` is the target unchanged |
| `AdminProxy.RelativePathJoinsOrigin` | supabase/functions/admin-proxy/index.ts:35 | any path not of the form `"http" + rest` is appended to the origin |
| `AdminProxy.TargetUrlShape` | supabase/functions/admin-proxy/index.ts:35 | the target always ends with the path, preceded by the origin or nothing; it equals the path iff the path starts with "http" or the origin is empty |
| `AdminProxy.HttpPrefixIsLiteral` | supabase/functions/admin-proxy/index.ts:35 | `"httpx/items"` is taken as absolute; `"/rest/v1/items"` is joined to the origin |
| `AdminProxy.Copied` | supabase/functions/admin-proxy/index.ts:37-42 | the record the copy loop builds never holds a name that lowercases to `content-length` |
| `AdminProxy.CopiedKeys` | supabase/functions/admin-proxy/index.ts:38-42 | a name is in the copied record iff some inbound pair has it and it is not `content-length` in any case |
| `AdminProxy.CopiedValue` | supabase/functions/admin-proxy/index.ts:38-42 | each kept name maps to the value of the last inbound pair with that name |
| `AdminProxy.InjectOnlyTouchesCredentials` | supabase/functions/admin-proxy/index.ts:44-45 | after injection `apikey` is the key and `Authorization` is `"Bearer " + key`, the key set only gains those two, and every other entry is unchanged |
| `AdminProxy.ForwardedCredentials` | supabase/functions/admin-proxy/index.ts:37-45 | whatever the inbound headers, the forwarded record has `apikey == key` and `Authorization == "Bearer " + key` |
| `AdminProxy.ForwardedNoContentLength` | supabase/functions/admin-proxy/index.ts:37-45 | no forwarded name is `content-length` in any letter case |
| `AdminProxy.ForwardedKeys` | supabase/functions/admin-proxy/index.ts:37-45 | the forwarded names are exactly `apikey`, `Authorization` and the inbound names that are not `content-length` |
| `AdminProxy.ForwardedKeepsInbound` | supabase/functions/admin-proxy/index.ts:37-45 | an inbound pair that is the last of its name, not `content-length` and not an injected key, is forwarded with its value unchanged |
| `AdminProxy.LowercaseAuthorizationSurvives` | supabase/functions/admin-proxy/index.ts:38-45 | with names as `forEach` yields them (lowercase), an inbound `authorization` is forwarded unchanged next to the injected `Authorization`, which was not in the copy |
| `AdminProxy.BuildForwardHeaders` | supabase/functions/admin-proxy/index.ts:37-45 | the loop plus the two assignments produce exactly `ForwardHeaders(inbound, key)`, the record the lemmas above describe |
| `AdminProxy.SelectBodyRule` | supabase/functions/admin-proxy/index.ts:47 | GET and HEAD send no body (and never read it); other methods send the inbound text ("" for no body); a failed read is the only error and carries its message |
| `AdminProxy.RelayHeadersShape` | supabase/functions/admin-proxy/index.ts:56-58 | the relayed headers are the three CORS headers, plus one `Content-Type` entry after them exactly when the backend's content type is non-empty |
| `AdminProxy.NullBodyReplyFailsAsWritten` | supabase/functions/admin-proxy/index.ts:55-63 | as written, a 204, 205 or 304 reply is answered with 500 and the constructor's TypeError, not with the backend's status |
| `AdminProxy.RelayMirrorsReply` | supabase/functions/admin-proxy/index.ts:55-63 | a reply with status in 200..599 is relayed with that status, its body (none for a null body status) and the CORS headers, followed by its content type when non-empty, else by `text/plain;charset=UTF-8` when there is a body, else by nothing |
| `AdminProxy.RelayFailures` | supabase/functions/admin-proxy/index.ts:60-69 | a failed call is a 500 JSON error with its message; a status the constructor rejects becomes a 500 carrying the RangeError |
| `AdminProxy.RelayAgreesWithAsWritten` | supabase/functions/admin-proxy/index.ts:55-69 | the corrected relay and the code as written agree on every outcome except replies with a null body status |
| `AdminProxy.BuildResponse` | supabase/functions/admin-proxy/index.ts:55-69 | building the response by setting `Content-Type` on the CORS header list and calling the `Response` constructor yields exactly `Relay(outcome)`, whose replies `RelayMirrorsReply` and whose failures `RelayFailures` describe |
| `AdminProxy.PreflightShortCircuit` | supabase/functions/admin-proxy/index.ts:21-23 | an `OPTIONS` request is answered 200, body "ok", the three CORS headers followed by `Content-Type: text/plain;charset=UTF-8`, with no backend call, whatever its path, headers and body |
| `AdminProxy.MissingPathRejected` | supabase/functions/admin-proxy/index.ts:27-33 | a non-`OPTIONS` request whose `path` is missing or empty is answered 400 with the JSON error, CORS headers plus `Content-Type: application/json`, and no backend call |
| `AdminProxy.UpstreamCalledIff` | supabase/functions/admin-proxy/index.ts:20-53 | the backend is called exactly for a non-`OPTIONS` request with a parsable URL, a non-empty `path` and, unless GET or HEAD, a readable body |
| `AdminProxy.ForwardedRequest` | supabase/functions/admin-proxy/index.ts:35-53 | the call made has the prefix-rule target, the inbound method, the rewritten headers (credentials set, no `content-length`), no body exactly for GET/HEAD and otherwise the inbound text (`""` when there is none), and the answer is the relayed outcome |
| `AdminProxy.FailuresAre500` | supabase/functions/admin-proxy/index.ts:64-69 | an unparsable URL, an unreadable body (non-GET/HEAD with a `path`), or a failed backend call, is answered 500 with the JSON error carrying the message and the CORS and JSON content-type headers |
| `AdminProxy.CorsOnEveryResponse` | supabase/functions/admin-proxy/index.ts:20-70 | every answer, success or error, begins with the three CORS headers |
| `AdminProxy.ReadOnlyMethodsIgnoreBody` | supabase/functions/admin-proxy/index.ts:47-53 | for GET and HEAD, the answer and the call do not depend on the inbound body |
| `AdminProxy.RelativeGetScenario` | supabase/functions/admin-proxy/index.ts:35-63 | `GET ?path=/rest/v1/items` against origin `https://api.example.com` and a 200 JSON reply goes to the joined URL with no body and relays 200, the body and `Content-Type: application/json` |
| `AdminProxy.Handle` | supabase/functions/admin-proxy/index.ts:20-71 | the `serve` callback's answer and backend call are exactly `Respond(config, req, upstream)`, the function the lemmas above characterise |

## Left out

- The HTTP listener (`serve`) and the network call (`fetch`). The backend is the parameter
  `upstream`, a function from the outbound request to an `Outcome`.
- Async behaviour, concurrency and timeouts. There is no shared state and no retry logic.
- Reading the process environment. `Env` holds the three variables as optional strings, and the
  texts of the two startup errors are not modelled.
- URL parsing and query-string decoding. The lookup of `path` is an `Option<string>`, and a
  URL that cannot be parsed is `UrlQuery.Unparsable`.
- `JSON.stringify` and the text decoding of bodies. The JSON error body is `ErrorJson(message)`.
- The wording of thrown messages. This covers `error.message` / `String(error)` and the
  runtime's RangeError and TypeError texts. Each is a message value (`Said`, `StatusOutOfRange`,
  `BodyWithNullBodyStatus`).
- What `fetch` does with the record afterwards. It merges names case-insensitively, so an
  inbound `authorization` is combined with the injected `Authorization` into one header. It also
  rejects invalid names or values. These are runtime behaviour outside the handler; a rejection
  is one way `upstream` returns `Failed`.
- `Headers` iteration's sorting and combining of duplicates. The model accepts any sequence of
  pairs. `IteratedForm` states only that the names are lowercase.
- Method normalisation by the runtime (upper-casing of standard verbs). The model compares the
  method string exactly as the request exposes it, as the code does.
- JavaScript record quirks. Assigning the key `__proto__` on a plain object does not create an
  entry. The model treats the header record as a plain case-sensitive map.
- Non-ASCII letters in header names. Header names are tokens, so lowercasing only ASCII letters
  covers them.
- The order in which response headers are serialised. Responses carry the header list in
  insertion order.
- AdminProxy.BuildResponse: passes no body for a 204, 205 or 304 reply, as corrected under
  Findings. Line 60 as written always passes `responseBody`, and the constructor then throws;
  `RelayAsWritten` models that behaviour.
- AdminProxy.Handle: relays 204, 205 and 304 replies with no body, as corrected under Findings.
  The code as written answers them with 500; `RelayAsWritten` models that behaviour.

## Findings

| source | as written | input that shows it | evidently intended | confidence | as-written member | corrected member |
|---|---|---|---|---|---|---|
| supabase/functions/admin-proxy/index.ts:55-63 | the backend's body text (at least `""`) is always passed to `new Response(responseBody, { status })`, and the Fetch Standard's `Response` constructor throws a TypeError for a non-null body with a null body status | a backend reply with status 204 (for example a REST `DELETE` that returns no content) and body `""`: the constructor throws, and the `catch` answers 500 | the backend's 204/205/304 status is relayed, with no body | medium, not executed | `AdminProxy.NullBodyReplyFailsAsWritten` (about `RelayAsWritten`) | `AdminProxy.RelayMirrorsReply` (about `Relay`, used by `Respond` and `BuildResponse`) |
