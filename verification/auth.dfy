/**
 * Authentication: the registry of strategies built from configuration, the
 * detection of a credential's type, dispatch to the registered authenticator,
 * and the identities the API-key and anonymous authenticators hand out. JWT
 * signature checking is a parameter.
 */
module Auth {
  import opened Wrappers
  import opened Strings
  import opened PromptTypes
  import KeyStore

  const ErrInvalidCredentials: string := "invalid credentials"
  const ErrInvalidToken: string := "invalid token"
  const WebhookNotImplemented: string := "webhook authentication not implemented"

  const TypeApiKey: string := "api_key"
  const TypeJwt: string := "jwt"
  const TypeWebhook: string := "webhook"
  const TypeAnonymous: string := "anonymous"

  /** The strategy types the registry knows how to build. */
  const KnownTypes: set<string> := {TypeApiKey, TypeJwt, TypeWebhook, TypeAnonymous}

  const IdentityUser: string := "user"
  const IdentityService: string := "service"
  const IdentityAnonymous: string := "anonymous"

  const PermissionAudioProcess: string := "audio.process"
  const PermissionAudioTranscribe: string := "audio.transcribe"
  const PermissionAudioTranslate: string := "audio.translate"
  const PermissionHealthCheck: string := "health.check"

  /** The JWT secret used when the strategy's configuration supplies none. */
  const DefaultSecret: string := "default-secret-key"

  /** The bearer prefix a JWT may carry. */
  const BearerPrefix: string := "Bearer "

  datatype Credentials = Credentials(kind: string, token: string, apiKey: string, data: map<string, Value>)

  /** A rate limit; the window is time.Minute, kept in seconds. */
  datatype RateLimitConfig = RateLimitConfig(requestsPerMinute: int, burstSize: int, windowSeconds: nat)

  const Minute: nat := 60

  datatype Identity = Identity(
    id: string,
    externalId: string,
    kind: string,
    permissions: seq<string>,
    metadata: map<string, Value>,
    rateLimits: Option<RateLimitConfig>)

  /** One configured strategy (config.AuthStrategy). */
  datatype AuthStrategy = AuthStrategy(kind: string, enabled: bool, config: map<string, Value>, endpoint: string)

  /** The authenticators, each with the state its constructor keeps. */
  datatype Authenticator =
    | ApiKeyAuthenticator(store: KeyStore.Store)
    | JwtAuthenticator(secret: string)
    | WebhookAuthenticator(endpoint: string, config: map<string, Value>)
    | AnonymousAuthenticator(config: map<string, Value>)
  {
    /** GetType */
    function Kind(): string {
      match this
      case ApiKeyAuthenticator(_) => TypeApiKey
      case JwtAuthenticator(_) => TypeJwt
      case WebhookAuthenticator(_, _) => TypeWebhook
      case AnonymousAuthenticator(_) => TypeAnonymous
    }
  }

  type Registry = map<string, Authenticator>

  /** Every authenticator is registered under its own type. */
  predicate WellKeyed(reg: Registry) {
    forall t :: t in reg ==> reg[t].Kind() == t
  }

  /** max */
  function Max(a: int, b: int): (r: int)
    ensures r >= a && r >= b
    ensures r == a || r == b
  {
    if a > b then a else b
  }

  // ---------------------------------------------------------------------------
  // Registration
  // ---------------------------------------------------------------------------

  /** NewJWTAuthenticator: the secret is the config's "secret" string, or the default. */
  function JwtSecret(config: map<string, Value>): (r: string)
    ensures "secret" in config && config["secret"].VStr? ==> r == config["secret"].s
    ensures !("secret" in config && config["secret"].VStr?) ==> r == DefaultSecret
  {
    if "secret" in config && config["secret"].VStr? then config["secret"].s else DefaultSecret
  }

  /**
   * The authenticator a strategy of known type builds. Every API-key
   * authenticator loads the same key file; its contents are the `loaded` store.
   */
  function Construct(st: AuthStrategy, loaded: KeyStore.Store): (a: Authenticator)
    requires st.kind in KnownTypes
    ensures a.Kind() == st.kind
    ensures a.ApiKeyAuthenticator? ==> a.store == loaded
    ensures a.JwtAuthenticator? ==> a.secret == JwtSecret(st.config)
  {
    if st.kind == TypeApiKey then ApiKeyAuthenticator(loaded)
    else if st.kind == TypeJwt then JwtAuthenticator(JwtSecret(st.config))
    else if st.kind == TypeWebhook then WebhookAuthenticator(st.endpoint, st.config)
    else AnonymousAuthenticator(st.config)
  }

  /** A strategy registers under `t` when it is enabled, of a known type, and of type `t`. */
  predicate Registers(st: AuthStrategy, t: string) {
    st.enabled && st.kind in KnownTypes && st.kind == t
  }

  /**
   * NewMultiAuthenticator: walks the strategies in order, skipping disabled
   * and unknown ones, and registers each under its type; a later strategy of
   * the same type replaces an earlier one.
   */
  function NewMultiAuthenticator(strategies: seq<AuthStrategy>, loaded: KeyStore.Store): (r: Registry)
    ensures forall t :: t in r ==> t in KnownTypes
    ensures WellKeyed(r)
    decreases |strategies|
  {
    if |strategies| == 0 then map[]
    else
      var earlier := NewMultiAuthenticator(strategies[..|strategies| - 1], loaded);
      var last := strategies[|strategies| - 1];
      if last.enabled && last.kind in KnownTypes then earlier[last.kind := Construct(last, loaded)] else earlier
  }

  /** A type is registered exactly when some enabled strategy of that known type was configured. */
  lemma {:induction false} RegistryDomain(strategies: seq<AuthStrategy>, loaded: KeyStore.Store, t: string)
    ensures t in NewMultiAuthenticator(strategies, loaded) <==>
      exists i :: 0 <= i < |strategies| && Registers(strategies[i], t)
    decreases |strategies|
  {
    if |strategies| > 0 {
      var n := |strategies| - 1;
      var prefix := strategies[..n];
      RegistryDomain(prefix, loaded, t);
      if t in NewMultiAuthenticator(strategies, loaded) {
        if !Registers(strategies[n], t) {
          var i :| 0 <= i < n && Registers(prefix[i], t);
          assert strategies[i] == prefix[i];
        }
      } else {
        forall i | 0 <= i < |strategies|
          ensures !Registers(strategies[i], t)
        {
          if i < n {
            assert strategies[i] == prefix[i];
          }
        }
      }
    }
  }

  /** The authenticator kept for a type is the one built from the last strategy registering it. */
  lemma {:induction false} RegistryLastWins(strategies: seq<AuthStrategy>, loaded: KeyStore.Store, t: string, i: nat)
    requires i < |strategies| && Registers(strategies[i], t)
    requires forall j :: i < j < |strategies| ==> !Registers(strategies[j], t)
    ensures t in NewMultiAuthenticator(strategies, loaded)
    ensures NewMultiAuthenticator(strategies, loaded)[t] == Construct(strategies[i], loaded)
    decreases |strategies|
  {
    var n := |strategies| - 1;
    if i < n {
      var prefix := strategies[..n];
      assert forall j :: i < j < n ==> prefix[j] == strategies[j];
      assert prefix[i] == strategies[i];
      RegistryLastWins(prefix, loaded, t, i);
      assert !Registers(strategies[n], t);
    }
  }

  // ---------------------------------------------------------------------------
  // Detection and dispatch
  // ---------------------------------------------------------------------------

  /**
   * detectAuthType: an API key wins; otherwise a token that carries the
   * bearer prefix or has exactly three dot-separated parts is a JWT;
   * otherwise the caller is anonymous.
   */
  function DetectAuthType(c: Credentials): (r: string)
    ensures r == TypeApiKey || r == TypeJwt || r == TypeAnonymous
    ensures r == TypeApiKey <==> c.apiKey != ""
    ensures r == TypeJwt <==>
      c.apiKey == "" && c.token != "" && (HasPrefix(c.token, BearerPrefix) || |Split(c.token, '.')| == 3)
  {
    if c.apiKey != "" then TypeApiKey
    else if c.token != "" && (HasPrefix(c.token, BearerPrefix) || |Split(c.token, '.')| == 3) then TypeJwt
    else TypeAnonymous
  }

  /** Without the bearer prefix, a token is taken for a JWT exactly when it holds two dots. */
  lemma DetectByDots(c: Credentials)
    requires c.apiKey == "" && !HasPrefix(c.token, BearerPrefix)
    ensures DetectAuthType(c) == TypeJwt <==> Count(c.token, '.') == 2
  {
    SplitCount(c.token, '.');
  }

  /** The verifier of a JWT: given the secret and the token, the claims of a valid token, or None. */
  type JwtVerifier = (string, string) -> Option<map<string, Value>>

  /** The clock and key-expiry parsing the API-key authenticator needs. */
  datatype Clock = Clock(parseExpiry: KeyStore.ExpiryParser, now: int)

  /**
   * MultiAuthenticator.Authenticate: an empty type is filled in by detection;
   * an unregistered type is an error; otherwise the registered authenticator
   * decides.
   */
  function Authenticate(reg: Registry, c: Credentials, clock: Clock, verify: JwtVerifier): (r: Result<Identity, string>)
    ensures var t := if c.kind == "" then DetectAuthType(c) else c.kind;
      && (t !in reg ==> r == Failure("unsupported auth type: " + t))
      && (t in reg ==> r == Dispatch(reg[t], c.(kind := t), clock, verify))
  {
    var t := if c.kind == "" then DetectAuthType(c) else c.kind;
    if t !in reg then Failure("unsupported auth type: " + t)
    else Dispatch(reg[t], c.(kind := t), clock, verify)
  }

  /** The Authenticate method of each authenticator. */
  function Dispatch(a: Authenticator, c: Credentials, clock: Clock, verify: JwtVerifier): Result<Identity, string> {
    match a
    case ApiKeyAuthenticator(store) => ApiKeyAuthenticate(store, c, clock)
    case JwtAuthenticator(secret) => JwtAuthenticate(secret, c, verify)
    case WebhookAuthenticator(_, _) => Failure(WebhookNotImplemented)
    case AnonymousAuthenticator(_) => Success(AnonymousIdentity)
  }

  // ---------------------------------------------------------------------------
  // API keys
  // ---------------------------------------------------------------------------

  /** A key whose ID mentions "enterprise" or "backend" belongs to a service; any other to a user. */
  function IdentityTypeFor(id: string): (r: string)
    ensures r == IdentityService <==> Contains(id, "enterprise") || Contains(id, "backend")
    ensures r == IdentityService || r == IdentityUser
  {
    if Contains(id, "enterprise") || Contains(id, "backend") then IdentityService else IdentityUser
  }

  /**
   * The rate limit of a key: a positive rate gets a burst of a fifth of it but
   * at least 10; -1 means unlimited in both; any other rate means no limit
   * record at all.
   */
  function RateLimitsFor(rpm: int): (r: Option<RateLimitConfig>)
    ensures r.Some? <==> rpm > 0 || rpm == -1
    ensures r.Some? ==> r.value.requestsPerMinute == rpm && r.value.windowSeconds == Minute
    ensures rpm > 0 ==>
      (r.value.burstSize >= 10 && r.value.burstSize >= rpm / 5 && (r.value.burstSize == 10 || r.value.burstSize == rpm / 5))
    ensures rpm == -1 ==> r.value.burstSize == -1
  {
    if rpm > 0 then Some(RateLimitConfig(rpm, Max(rpm / 5, 10), Minute))
    else if rpm == -1 then Some(RateLimitConfig(-1, -1, Minute))
    else None
  }

  /** For a positive rate, the burst stays within the rate exactly when the rate is at least 10. */
  lemma BurstWithinRate(rpm: int)
    requires rpm > 0
    ensures RateLimitsFor(rpm).value.burstSize <= rpm <==> rpm >= 10
  {
  }

  /** A key holder may process, transcribe and translate audio, and check health. */
  const KeyPermissions: seq<string> :=
    [PermissionAudioProcess, PermissionAudioTranscribe, PermissionAudioTranslate, PermissionHealthCheck]

  /**
   * APIKeyAuthenticator.Authenticate: an empty key, or one the store does not
   * return, is invalid credentials; otherwise the identity carries the key's
   * ID, metadata and rate limit.
   */
  function ApiKeyAuthenticate(store: KeyStore.Store, c: Credentials, clock: Clock): (r: Result<Identity, string>)
    ensures r.Failure? ==> r.error == ErrInvalidCredentials
    ensures r.Success? <==> c.apiKey != "" && KeyStore.GetKey(store, c.apiKey, clock.parseExpiry, clock.now).1
    ensures r.Success? ==>
      var cfg := store[c.apiKey];
      && r.value.id == cfg.id
      && r.value.kind == IdentityTypeFor(cfg.id)
      && r.value.permissions == KeyPermissions
      && r.value.metadata == cfg.metadata
      && r.value.rateLimits == RateLimitsFor(cfg.requestsPerMinute)
  {
    if c.apiKey == "" then Failure(ErrInvalidCredentials)
    else
      var (cfg, found) := KeyStore.GetKey(store, c.apiKey, clock.parseExpiry, clock.now);
      if !found then Failure(ErrInvalidCredentials)
      else Success(Identity(cfg.id, "", IdentityTypeFor(cfg.id), KeyPermissions, cfg.metadata, RateLimitsFor(cfg.requestsPerMinute)))
  }

  // ---------------------------------------------------------------------------
  // JWT, webhook, anonymous
  // ---------------------------------------------------------------------------

  /** A claim as a string, or the default when it is missing or not a string. */
  function ClaimString(claims: map<string, Value>, key: string, default: string): (r: string)
    ensures key in claims && claims[key].VStr? ==> r == claims[key].s
    ensures !(key in claims && claims[key].VStr?) ==> r == default
  {
    if key in claims && claims[key].VStr? then claims[key].s else default
  }

  /** The string elements of a list, in order; elements of any other type are skipped. */
  function StringElems(elems: seq<Value>): (r: seq<string>)
    ensures |r| <= |elems|
    ensures forall p :: p in r <==> VStr(p) in elems
  {
    if |elems| == 0 then []
    else (if elems[0].VStr? then [elems[0].s] else []) + StringElems(elems[1..])
  }

  lemma {:induction false} StringElemsAppend(a: seq<Value>, b: seq<Value>)
    ensures StringElems(a + b) == StringElems(a) + StringElems(b)
    decreases |a|
  {
    if |a| > 0 {
      assert (a + b)[0] == a[0] && (a + b)[1..] == a[1..] + b;
      StringElemsAppend(a[1..], b);
    } else {
      assert a + b == b;
    }
  }

  /**
   * parsePermissions: a claim that is a `[]interface{}` gives its string
   * elements, others skipped; any other value, a `[]string` included (it
   * fails the type assertion), gives none.
   */
  function ParsePermissions(v: Value): (r: seq<string>)
    ensures !v.VList? ==> r == []
    ensures v.VList? ==> |r| <= |v.elems| && forall p :: p in r <==> VStr(p) in v.elems
  {
    if v.VList? then StringElems(v.elems) else []
  }

  /**
   * The permissions keep the list's order: a list splits into the
   * permissions of its parts, and a single element gives its string or
   * nothing. So `["read", 5, "write"]` gives `["read", "write"]`.
   */
  lemma ParsePermissionsInOrder(a: seq<Value>, b: seq<Value>, x: Value)
    ensures ParsePermissions(VList(a + b)) == ParsePermissions(VList(a)) + ParsePermissions(VList(b))
    ensures ParsePermissions(VList([x])) == if x.VStr? then [x.s] else []
    ensures ParsePermissions(VList([VStr("read"), VInt(5), VStr("write")])) == ["read", "write"]
  {
    StringElemsAppend(a, b);
    assert [x][1..] == [];
    var l := [VStr("read"), VInt(5), VStr("write")];
    assert l[1..][1..][1..] == [];
  }

  /** The token with one leading "Bearer " removed. */
  function StripBearer(token: string): (r: string)
    ensures HasPrefix(token, BearerPrefix) ==> BearerPrefix + r == token
    ensures !HasPrefix(token, BearerPrefix) ==> r == token
  {
    if HasPrefix(token, BearerPrefix) then token[|BearerPrefix|..] else token
  }

  /**
   * JWTAuthenticator.Authenticate: the bearer prefix is removed, the verifier
   * checks the rest with the secret, and a valid token's claims give the
   * identity (type "user" unless the claims say otherwise). JWT identities
   * carry no rate limit.
   */
  function JwtAuthenticate(secret: string, c: Credentials, verify: JwtVerifier): (r: Result<Identity, string>)
    ensures r.Failure? <==> verify(secret, StripBearer(c.token)).None?
    ensures r.Failure? ==> r.error == ErrInvalidToken
    ensures r.Success? ==>
      var claims := verify(secret, StripBearer(c.token)).value;
      && r.value.id == ClaimString(claims, "sub", "")
      && r.value.externalId == ClaimString(claims, "user_id", "")
      && r.value.kind == ClaimString(claims, "type", IdentityUser)
      && r.value.permissions == (if "permissions" in claims then ParsePermissions(claims["permissions"]) else [])
      && r.value.metadata == claims
      && r.value.rateLimits.None?
  {
    match verify(secret, StripBearer(c.token))
    case None => Failure(ErrInvalidToken)
    case Some(claims) =>
      var perms := if "permissions" in claims then ParsePermissions(claims["permissions"]) else [];
      Success(Identity(ClaimString(claims, "sub", ""), ClaimString(claims, "user_id", ""),
        ClaimString(claims, "type", IdentityUser), perms, claims, None))
  }

  /** The anonymous identity: health checks only, 10 requests a minute, burst 5. */
  const AnonymousIdentity: Identity :=
    Identity("anonymous", "", IdentityAnonymous, [PermissionHealthCheck], map[], Some(RateLimitConfig(10, 5, Minute)))

  // ---------------------------------------------------------------------------
  // End-to-end properties
  // ---------------------------------------------------------------------------

  /**
   * Credentials without a type are authenticated exactly as if they had
   * carried the detected type.
   */
  lemma EmptyTypeIsDetected(reg: Registry, c: Credentials, clock: Clock, verify: JwtVerifier)
    requires c.kind == ""
    ensures Authenticate(reg, c, clock, verify) == Authenticate(reg, c.(kind := DetectAuthType(c)), clock, verify)
  {
  }

  /**
   * With an anonymous strategy registered, credentials with neither a key nor
   * a token always get the anonymous identity, whatever else is configured.
   */
  lemma BareCredentialsAreAnonymous(strategies: seq<AuthStrategy>, loaded: KeyStore.Store, c: Credentials, clock: Clock, verify: JwtVerifier)
    requires exists i :: 0 <= i < |strategies| && Registers(strategies[i], TypeAnonymous)
    requires c.kind == "" && c.apiKey == "" && c.token == ""
    ensures Authenticate(NewMultiAuthenticator(strategies, loaded), c, clock, verify) == Success(AnonymousIdentity)
  {
    RegistryDomain(strategies, loaded, TypeAnonymous);
  }

  /**
   * An API key is accepted only if the loaded store holds it enabled and
   * unexpired, and the identity then carries that entry's ID.
   */
  lemma ApiKeyAcceptedOnlyIfStored(strategies: seq<AuthStrategy>, loaded: KeyStore.Store, c: Credentials, clock: Clock, verify: JwtVerifier)
    requires c.kind == TypeApiKey
    requires Authenticate(NewMultiAuthenticator(strategies, loaded), c, clock, verify).Success?
    ensures c.apiKey in loaded && loaded[c.apiKey].enabled
    ensures !KeyStore.Expired(loaded[c.apiKey], clock.parseExpiry, clock.now)
    ensures Authenticate(NewMultiAuthenticator(strategies, loaded), c, clock, verify).value.id == loaded[c.apiKey].id
  {
    var reg := NewMultiAuthenticator(strategies, loaded);
    RegistryDomain(strategies, loaded, TypeApiKey);
    assert reg[TypeApiKey].Kind() == TypeApiKey;
    LoadedStoreOnly(strategies, loaded);
  }

  /** Every API-key authenticator in the registry holds the loaded store. */
  lemma {:induction false} LoadedStoreOnly(strategies: seq<AuthStrategy>, loaded: KeyStore.Store)
    ensures forall t :: t in NewMultiAuthenticator(strategies, loaded) && NewMultiAuthenticator(strategies, loaded)[t].ApiKeyAuthenticator? ==>
      NewMultiAuthenticator(strategies, loaded)[t].store == loaded
    decreases |strategies|
  {
    if |strategies| > 0 {
      var earlier := strategies[..|strategies| - 1];
      var last := strategies[|strategies| - 1];
      LoadedStoreOnly(earlier, loaded);
      var before := NewMultiAuthenticator(earlier, loaded);
      var reg := NewMultiAuthenticator(strategies, loaded);
      forall t | t in reg && reg[t].ApiKeyAuthenticator?
        ensures reg[t].store == loaded
      {
        if !(last.enabled && last.kind in KnownTypes && t == last.kind) {
          assert t in before && reg[t] == before[t];
        }
      }
    }
  }
}
