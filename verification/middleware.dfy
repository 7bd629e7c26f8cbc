/**
 * The HTTP middleware's decisions, without the HTTP framework: how
 * credentials are read from the headers, when a request is rejected or
 * served anonymously, how request IDs are formed, and what the metrics
 * middleware records. Headers arrive as strings, "" when absent.
 */
module Middleware {
  import opened Wrappers
  import opened Strings
  import Auth
  import Metrics

  const ApiKeyPrefix: string := "ApiKey "

  /**
   * extractCredentials: X-API-Key gives an API key; an Authorization header
   * with the bearer prefix is then kept whole as the token (type "jwt"), and
   * one with "ApiKey " gives the key after the prefix (type "api_key"),
   * replacing X-API-Key. Any other Authorization value is ignored.
   */
  function ExtractCredentials(xApiKey: string, authorization: string): (r: Auth.Credentials)
    ensures r.data == map[]
    ensures HasPrefix(authorization, Auth.BearerPrefix) ==>
      r.kind == Auth.TypeJwt && r.token == authorization && r.apiKey == xApiKey
    ensures !HasPrefix(authorization, Auth.BearerPrefix) && HasPrefix(authorization, ApiKeyPrefix) ==>
      r.kind == Auth.TypeApiKey && r.token == "" && ApiKeyPrefix + r.apiKey == authorization
    ensures !HasPrefix(authorization, Auth.BearerPrefix) && !HasPrefix(authorization, ApiKeyPrefix) ==>
      r.token == "" && r.apiKey == xApiKey && r.kind == (if xApiKey != "" then Auth.TypeApiKey else "")
  {
    var fromKey := if xApiKey != "" then Auth.Credentials(Auth.TypeApiKey, "", xApiKey, map[])
                   else Auth.Credentials("", "", "", map[]);
    if authorization == "" then fromKey
    else if HasPrefix(authorization, Auth.BearerPrefix) then fromKey.(token := authorization, kind := Auth.TypeJwt)
    else if HasPrefix(authorization, ApiKeyPrefix) then
      fromKey.(apiKey := authorization[|ApiKeyPrefix|..], kind := Auth.TypeApiKey)
    else fromKey
  }

  /**
   * The type the middleware sets agrees with what detection would choose,
   * except for a bearer header sent alongside X-API-Key, where the header
   * wins; and the type is left empty only for requests with neither a key
   * nor a token, which detection calls anonymous.
   */
  lemma ExtractedTypeMatchesDetection(xApiKey: string, authorization: string)
    ensures var c := ExtractCredentials(xApiKey, authorization);
      && (c.kind == "" <==> c.apiKey == "" && c.token == "" && !HasPrefix(authorization, ApiKeyPrefix))
      && (c.kind == "" ==> Auth.DetectAuthType(c) == Auth.TypeAnonymous)
      && (c.kind != "" && c.apiKey != "" ==> (Auth.DetectAuthType(c) == c.kind <==> c.kind == Auth.TypeApiKey))
      && (c.kind != "" && c.apiKey == "" && c.token != "" ==> Auth.DetectAuthType(c) == c.kind)
  {
    var c := ExtractCredentials(xApiKey, authorization);
    if HasPrefix(authorization, Auth.BearerPrefix) {
      assert HasPrefix(c.token, Auth.BearerPrefix);
    }
  }

  /** What the Auth middleware does with a request: reject it with 401, or admit it with an identity. */
  datatype AuthOutcome = Rejected(status: int, message: string) | Admitted(identity: Auth.Identity)

  /** Auth: any authentication error becomes a 401 "authentication failed". */
  function AuthMiddleware(reg: Auth.Registry, xApiKey: string, authorization: string, clock: Auth.Clock, verify: Auth.JwtVerifier)
    : (r: AuthOutcome)
    ensures var a := Auth.Authenticate(reg, ExtractCredentials(xApiKey, authorization), clock, verify);
      && (r.Admitted? <==> a.Success?)
      && (r.Admitted? ==> r.identity == a.value)
      && (r.Rejected? ==> r.status == 401 && r.message == "authentication failed")
  {
    match Auth.Authenticate(reg, ExtractCredentials(xApiKey, authorization), clock, verify)
    case Success(id) => Admitted(id)
    case Failure(_) => Rejected(401, "authentication failed")
  }

  /**
   * OptionalAuth: credentials with neither key nor token are typed
   * "anonymous"; when authentication fails it is retried as anonymous, and
   * the retry's error is dropped, leaving no identity (Go's nil).
   */
  function OptionalAuth(reg: Auth.Registry, xApiKey: string, authorization: string, clock: Auth.Clock, verify: Auth.JwtVerifier)
    : (r: Option<Auth.Identity>)
    ensures var c := ExtractCredentials(xApiKey, authorization);
      var c1 := if c.apiKey == "" && c.token == "" then c.(kind := Auth.TypeAnonymous) else c;
      && (Auth.Authenticate(reg, c1, clock, verify).Success? ==> r == Some(Auth.Authenticate(reg, c1, clock, verify).value))
      && (Auth.Authenticate(reg, c1, clock, verify).Failure? ==>
           r == (match Auth.Authenticate(reg, c1.(kind := Auth.TypeAnonymous), clock, verify)
                 case Success(id) => Some(id)
                 case Failure(_) => None))
  {
    var c := ExtractCredentials(xApiKey, authorization);
    var c1 := if c.apiKey == "" && c.token == "" then c.(kind := Auth.TypeAnonymous) else c;
    match Auth.Authenticate(reg, c1, clock, verify)
    case Success(id) => Some(id)
    case Failure(_) =>
      match Auth.Authenticate(reg, c1.(kind := Auth.TypeAnonymous), clock, verify)
      case Success(id) => Some(id)
      case Failure(_) => None
  }

  /**
   * With the anonymous strategy registered, OptionalAuth always yields an
   * identity; a request without a key or token, or one whose credentials are
   * refused, is served as the anonymous identity.
   */
  lemma OptionalAuthNeverRefuses(reg: Auth.Registry, xApiKey: string, authorization: string, clock: Auth.Clock, verify: Auth.JwtVerifier)
    requires Auth.WellKeyed(reg) && Auth.TypeAnonymous in reg
    ensures OptionalAuth(reg, xApiKey, authorization, clock, verify).Some?
    ensures var c := ExtractCredentials(xApiKey, authorization);
      c.apiKey == "" && c.token == "" ==> OptionalAuth(reg, xApiKey, authorization, clock, verify) == Some(Auth.AnonymousIdentity)
    ensures AuthMiddleware(reg, xApiKey, authorization, clock, verify).Rejected? ==>
      OptionalAuth(reg, xApiKey, authorization, clock, verify) == Some(Auth.AnonymousIdentity)
  {
    assert reg[Auth.TypeAnonymous].AnonymousAuthenticator?;
  }

  // ---------------------------------------------------------------------------
  // Request IDs
  // ---------------------------------------------------------------------------

  const Charset: string := "abcdefghijklmnopqrstuvwxyz0123456789"

  /**
   * randomString: each character is picked by the clock's nanosecond reading
   * at that step, modulo 36. The readings are a parameter (nanoseconds since
   * 1970, so never negative).
   */
  function RandomString(length: nat, ticks: seq<nat>): (r: string)
    requires |ticks| >= length
    ensures |r| == length
    ensures forall i :: 0 <= i < |r| ==> r[i] in Charset
  {
    seq(length, i requires 0 <= i < length => Charset[ticks[i] % |Charset|])
  }

  /** Every character randomString can produce is a lower-case ASCII letter or a digit. */
  lemma RandomStringAlphabet(length: nat, ticks: seq<nat>)
    requires |ticks| >= length
    ensures forall i :: 0 <= i < length ==>
      var ch := RandomString(length, ticks)[i];
      ('a' <= ch <= 'z') || ('0' <= ch <= '9')
  {
    assert forall j :: 0 <= j < |Charset| ==> ('a' <= Charset[j] <= 'z') || ('0' <= Charset[j] <= '9');
  }

  /**
   * generateRequestID: "req_", the clock formatted as yyyyMMddHHmmss (a
   * parameter), "_", and six random characters.
   */
  function GenerateRequestID(stamp: string, ticks: seq<nat>): (r: string)
    requires |ticks| >= 6
    ensures |r| == |stamp| + 11
    ensures r[..4] == "req_" && r[4..4 + |stamp|] == stamp && r[4 + |stamp|] == '_'
    ensures forall i :: |r| - 6 <= i < |r| ==> r[i] in Charset
  {
    "req_" + stamp + "_" + RandomString(6, ticks)
  }

  /** RequestID: the client's X-Request-ID when given, a generated one otherwise. */
  function RequestIDFor(header: string, generated: string): (r: string)
    ensures header != "" ==> r == header
    ensures header == "" ==> r == generated
  {
    if header == "" then generated else header
  }

  // ---------------------------------------------------------------------------
  // Status groups and request metrics
  // ---------------------------------------------------------------------------

  /** statusCodeToGroup */
  function StatusCodeToGroup(code: int): (r: string)
    ensures 200 <= code < 300 ==> r == "2xx"
    ensures 300 <= code < 400 ==> r == "3xx"
    ensures 400 <= code < 500 ==> r == "4xx"
    ensures code >= 500 ==> r == "5xx"
    ensures code < 200 ==> r == "unknown"
  {
    if 200 <= code < 300 then "2xx"
    else if 300 <= code < 400 then "3xx"
    else if 400 <= code < 500 then "4xx"
    else if code >= 500 then "5xx"
    else "unknown"
  }

  /**
   * For the codes HTTP defines, the group is the hundreds digit followed by
   * "xx"; codes from 600 up are still counted as 5xx.
   */
  lemma StatusGroupIsHundreds(code: int)
    ensures 200 <= code < 600 ==> StatusCodeToGroup(code) == [('0' as int + code / 100) as char] + "xx"
    ensures StatusCodeToGroup(code) == "unknown" <==> code < 200
  {
  }

  /** The tags of one request's metrics. */
  function RequestTags(verb: string, path: string, status: int): map<string, string> {
    map["method" := verb, "path" := path, "status" := StatusCodeToGroup(status)]
  }

  /** buildKey, abstract: it depends on the iteration order of the tag map. */
  type KeyBuilder = (string, map<string, string>) -> string

  /**
   * Metrics: one request adds its duration to the "http_request_duration"
   * window and one to the "http_requests_total" counter, both under its
   * method, route and status group.
   */
  function RecordRequest(c: Metrics.Collector, keyOf: KeyBuilder, verb: string, path: string, status: int, duration: int)
    : (r: Metrics.Collector)
    ensures var tags := RequestTags(verb, path, status);
      var lk := keyOf("http_request_duration", tags);
      var ck := keyOf("http_requests_total", tags);
      && Metrics.Window(r, lk) == Metrics.Slide(Metrics.Window(c, lk), duration)
      && Metrics.Counter(r, ck) == Metrics.WrapInt64(Metrics.Counter(c, ck) + 1)
      && (Metrics.InInt64(Metrics.Counter(c, ck) + 1) ==> Metrics.Counter(r, ck) == Metrics.Counter(c, ck) + 1)
      && (forall k :: k != lk ==> Metrics.Window(r, k) == Metrics.Window(c, k))
      && (forall k :: k != ck ==> Metrics.Counter(r, k) == Metrics.Counter(c, k))
      && r.gauges == c.gauges
    ensures Metrics.Valid(c) ==> Metrics.Valid(r)
  {
    var tags := RequestTags(verb, path, status);
    var c1 := Metrics.RecordLatency(c, keyOf("http_request_duration", tags), duration);
    Metrics.RecordCounter(c1, keyOf("http_requests_total", tags), 1)
  }
}
