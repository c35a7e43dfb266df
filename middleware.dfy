/** The global request middleware: CORS preflight, the on/off token gate
    and CORS annotation of forwarded responses. The decision is a pure
    function of the deployment setting, the method, the path and the
    `Authorization` header; the annotation sets three headers on a copy of
    the downstream response. */
module Middleware {
  import opened Text
  import opened Js
  import opened Http
  import opened Tokens

  /** Header names as the source spells them, assembled from short pieces. */
  const AllowOrigin := "Access-" + "Control-" + "Allow-" + "Origin"
  const AllowMethods := "Access-" + "Control-" + "Allow-" + "Methods"
  const AllowHeaders := "Access-" + "Control-" + "Allow-" + "Headers"

  const AnyOrigin := "*"
  const Methods := "GET, POST, PUT, DELETE, OPTIONS"
  const RequestHeaders := "Content-Type, Authorization"
  const OneDay := "86400"

  /** The same names as `Headers` stores them. */
  const OriginKey := "access-" + "control-" + "allow-" + "origin"
  const MethodsKey := "access-" + "control-" + "allow-" + "methods"
  const HeadersKey := "access-" + "control-" + "allow-" + "headers"
  const MaxAgeKey := "access-" + "control-" + "max-" + "age"

  lemma LowerAccess() ensures ToLower("Access-") == "access-" {}
  lemma LowerControl() ensures ToLower("Control-") == "control-" {}
  lemma LowerAllow() ensures ToLower("Allow-") == "allow-" {}
  lemma LowerOrigin() ensures ToLower("Origin") == "origin" {}
  lemma LowerMethods() ensures ToLower("Methods") == "methods" {}
  lemma LowerHeaders() ensures ToLower("Headers") == "headers" {}

  lemma LowerPrefix()
    ensures ToLower("Access-" + "Control-" + "Allow-") == "access-" + "control-" + "allow-"
  {
    ToLowerAppend("Access-", "Control-");
    ToLowerAppend("Access-" + "Control-", "Allow-");
    LowerAccess();
    LowerControl();
    LowerAllow();
  }

  lemma LowerNames()
    ensures ToLower(AllowOrigin) == OriginKey
    ensures ToLower(AllowMethods) == MethodsKey
    ensures ToLower(AllowHeaders) == HeadersKey
  {
    LowerPrefix();
    ToLowerAppend("Access-" + "Control-" + "Allow-", "Origin");
    ToLowerAppend("Access-" + "Control-" + "Allow-", "Methods");
    ToLowerAppend("Access-" + "Control-" + "Allow-", "Headers");
    LowerOrigin();
    LowerMethods();
    LowerHeaders();
  }

  lemma KeysDistinct()
    ensures OriginKey != MethodsKey && OriginKey != HeadersKey && MethodsKey != HeadersKey
    ensures MaxAgeKey != OriginKey && MaxAgeKey != MethodsKey && MaxAgeKey != HeadersKey
  {
    assert OriginKey[21] == 'o' && MethodsKey[21] == 'm' && HeadersKey[21] == 'h';
    assert MaxAgeKey[15] == 'm' && OriginKey[15] == 'a';
  }

  lemma ToLowerAppend(a: string, b: string)
    ensures ToLower(a + b) == ToLower(a) + ToLower(b)
  {
  }

  /** The fixed answer to a preflight request. */
  const PreflightResponse := Response(204, map[
    OriginKey := AnyOrigin,
    MethodsKey := Methods,
    HeadersKey := RequestHeaders,
    MaxAgeKey := OneDay], NoBody)

  const AuthPath := "/api/auth"
  const MissingTokenError := "需要登录才能访问"
  const InvalidTokenError := "无效或过期的认证令牌"

  /** `{success: false, error, authRequired: true}` with status 401. */
  function RejectResponse(error: string): Response {
    JsonResponse(401,
      Obj([("success", Bool(false)), ("error", Str(error)), ("authRequired", Bool(true))]),
      map[OriginKey := AnyOrigin])
  }

  /** What the middleware does with a request; `verified` is the token that
      was handed to the verifier, if any. */
  datatype Decision =
    | Preflight
    | Reject(error: string, verified: Option<string>)
    | Forward(verified: Option<string>)

  /** The gate is on only when `AUTHENTICATION_REQUIRED` is the string `'true'`. */
  predicate AuthRequired(setting: Value) {
    setting == Str("true")
  }

  function Gate(setting: Value, verb: string, path: string, authorization: Option<string>,
                verify: Verifier): Decision
  {
    if verb == "OPTIONS" then Preflight
    else if !AuthRequired(setting) || StartsWith(path, AuthPath) then Forward(None)
    else
      match BearerToken(authorization)
      case None => Reject(MissingTokenError, None)
      case Some(token) =>
        if verify(token).None? then Reject(InvalidTokenError, Some(token)) else Forward(Some(token))
  }

  /** The three CORS headers set on every forwarded response. */
  const CorsHeaders := map[
    OriginKey := AnyOrigin,
    MethodsKey := Methods,
    HeadersKey := RequestHeaders]

  /** A forwarded response: same status and body, CORS headers set over
      whatever the handler put there. */
  function WithCors(r: Response): Response {
    Response(r.status, r.headers + CorsHeaders, r.body)
  }

  /** `new Response(response.body, response)` followed by the three `set` calls. */
  method AddCors(downstream: Response) returns (r: Response)
    ensures r == WithCors(downstream)
  {
    var headers := new Headers(downstream.headers);
    LowerNames();
    headers.Set(AllowOrigin, AnyOrigin);
    headers.Set(AllowMethods, Methods);
    headers.Set(AllowHeaders, RequestHeaders);
    CorsMerge(downstream.headers);
    r := Response(downstream.status, headers.entries, downstream.body);
  }

  lemma CorsMerge(h: map<string, string>)
    ensures h[OriginKey := AnyOrigin][MethodsKey := Methods][HeadersKey := RequestHeaders] == h + CorsHeaders
  {
  }

  function Respond(d: Decision, next: Response): Response {
    match d
    case Preflight => PreflightResponse
    case Reject(error, _) => RejectResponse(error)
    case Forward(_) => WithCors(next)
  }

  /** `onRequest`. The bearer token is read from the request's headers with
      `get('Authorization')`. `next` is the downstream handler's response; it
      is used, and the handler reached, only when the request is forwarded. */
  method OnRequest(setting: Value, verb: string, path: string, requestHeaders: Headers,
                   verify: Verifier, next: Response)
    returns (response: Response, forwarded: bool)
    ensures forwarded <==> Gate(setting, verb, path, requestHeaders.Get("Authorization"), verify).Forward?
    ensures response == Respond(Gate(setting, verb, path, requestHeaders.Get("Authorization"), verify), next)
  {
    var authorization := requestHeaders.Get("Authorization");
    var d := Gate(setting, verb, path, authorization, verify);
    match d {
      case Preflight =>
        response, forwarded := PreflightResponse, false;
      case Reject(error, _) =>
        response, forwarded := RejectResponse(error), false;
      case Forward(_) =>
        response := AddCors(next);
        forwarded := true;
    }
  }

  // ----- Properties -----

  /** A preflight gets the fixed 204 with the four CORS headers, including a
      one-day cache, whatever the setting, path and headers. */
  lemma PreflightAlwaysAnswered(setting: Value, path: string, authorization: Option<string>,
                                verify: Verifier, next: Response)
    ensures var r := Respond(Gate(setting, "OPTIONS", path, authorization, verify), next);
      && r.status == 204 && r.body == NoBody
      && r.headers[MaxAgeKey] == "86400"
      && r.headers[OriginKey] == "*"
      && r.headers[MethodsKey] == "GET, POST, PUT, DELETE, OPTIONS"
      && r.headers[HeadersKey] == "Content-Type, Authorization"
  {
    KeysDistinct();
  }

  /** A request is forwarded exactly when it is not a preflight and either
      the gate is off, the path is under `/api/auth`, or the header carries
      a bearer token the verifier accepts. */
  lemma ForwardIff(setting: Value, verb: string, path: string, authorization: Option<string>,
                   verify: Verifier)
    ensures Gate(setting, verb, path, authorization, verify).Forward?
        <==> verb != "OPTIONS"
             && (!AuthRequired(setting) || StartsWith(path, AuthPath)
                 || (exists token :: authorization == Some(BearerPrefix + token) && verify(token).Some?))
  {
    var bt := BearerToken(authorization);
    if bt.Some? {
      BearerTokenIff(authorization, bt.value);
    }
    if exists token :: authorization == Some(BearerPrefix + token) && verify(token).Some? {
      var token :| authorization == Some(BearerPrefix + token) && verify(token).Some?;
      BearerTokenIff(authorization, token);
    }
  }

  /** With any setting other than the string `'true'` (a boolean `true`
      included), every non-preflight request is forwarded untouched by the
      verifier, whatever its headers. */
  lemma GateOffForwardsAll(setting: Value, verb: string, path: string,
                           authorization: Option<string>, verify: Verifier)
    requires verb != "OPTIONS" && setting != Str("true")
    ensures Gate(setting, verb, path, authorization, verify) == Forward(None)
  {
  }

  /** The exemption is a bare prefix test: `/api/authx` is exempt too. */
  lemma AuthPrefixExempt(setting: Value, verb: string, suffix: string,
                         authorization: Option<string>, verify: Verifier)
    requires verb != "OPTIONS"
    ensures Gate(setting, verb, AuthPath + suffix, authorization, verify) == Forward(None)
  {
    assert (AuthPath + suffix)[..|AuthPath|] == AuthPath;
  }

  /** Without a `Bearer ` header the request is rejected with 401 and
      `authRequired`, before and regardless of any verification. */
  lemma MissingBearerRejected(setting: Value, verb: string, path: string,
                              authorization: Option<string>, verify: Verifier, other: Verifier,
                              next: Response)
    requires verb != "OPTIONS" && AuthRequired(setting) && !StartsWith(path, AuthPath)
    requires authorization.None? || !StartsWith(authorization.value, BearerPrefix)
    ensures Gate(setting, verb, path, authorization, verify) == Reject(MissingTokenError, None)
    ensures Gate(setting, verb, path, authorization, verify)
         == Gate(setting, verb, path, authorization, other)
    ensures var r := Respond(Gate(setting, verb, path, authorization, verify), next);
      r.status == 401 && r.body.value == Obj([("success", Bool(false)),
        ("error", Str(MissingTokenError)), ("authRequired", Bool(true))])
  {
  }

  /** The verifier receives the header minus its first seven characters. */
  lemma VerifiedTokenIsHeaderSuffix(setting: Value, verb: string, path: string,
                                    authorization: Option<string>, verify: Verifier, token: string)
    requires Gate(setting, verb, path, authorization, verify).Reject?
          || Gate(setting, verb, path, authorization, verify).Forward?
    requires Gate(setting, verb, path, authorization, verify).verified == Some(token)
    ensures authorization == Some(BearerPrefix + token)
    ensures authorization.value[7..] == token
  {
    BearerTokenIff(authorization, token);
    assert |BearerPrefix| == 7;
    assert (BearerPrefix + token)[7..] == token;
  }

  /** A token the verifier refuses gives a 401 that differs from the
      missing-header rejection only in its error text. */
  lemma InvalidTokenRejected(setting: Value, verb: string, path: string, token: string,
                             verify: Verifier, next: Response)
    requires verb != "OPTIONS" && AuthRequired(setting) && !StartsWith(path, AuthPath)
    requires verify(token).None?
    ensures Gate(setting, verb, path, Some(BearerPrefix + token), verify)
         == Reject(InvalidTokenError, Some(token))
    ensures var r := Respond(Gate(setting, verb, path, Some(BearerPrefix + token), verify), next);
      var missing := RejectResponse(MissingTokenError);
      && r.status == missing.status == 401 && r.headers == missing.headers
      && r.body.value.fields[..1] == missing.body.value.fields[..1]
      && r.body.value.fields[2..] == missing.body.value.fields[2..]
      && r.body.value.fields[1] == ("error", Str(InvalidTokenError))
  {
    BearerTokenIff(Some(BearerPrefix + token), token);
  }

  /** A rejected or preflight request never reaches the handler; rejections
      carry one CORS header, `Access-Control-Allow-Origin: *`. */
  lemma RejectionNotForwarded(setting: Value, verb: string, path: string,
                              authorization: Option<string>, verify: Verifier, next: Response)
    requires Gate(setting, verb, path, authorization, verify).Reject?
    ensures var r := Respond(Gate(setting, verb, path, authorization, verify), next);
      && r.status == 401
      && r.headers == map[OriginKey := "*", "content-type" := JsonContentType]
  {
    assert map[OriginKey := AnyOrigin]["content-type" := JsonContentType]
        == map[OriginKey := "*", "content-type" := JsonContentType];
  }

  /** A forwarded response keeps the handler's status and body and every
      other header, and has the three CORS headers set over any existing
      value. */
  lemma ForwardedKeepsResponse(r: Response)
    ensures WithCors(r).status == r.status && WithCors(r).body == r.body
    ensures WithCors(r).headers[OriginKey] == "*"
    ensures WithCors(r).headers[MethodsKey] == "GET, POST, PUT, DELETE, OPTIONS"
    ensures WithCors(r).headers[HeadersKey] == "Content-Type, Authorization"
    ensures forall k :: k in r.headers && k !in CorsHeaders ==> WithCors(r).headers[k] == r.headers[k]
    ensures WithCors(r).headers.Keys == r.headers.Keys + CorsHeaders.Keys
  {
    KeysDistinct();
  }
}
