/**
 * The Viessmann client: cache-first bearer-token acquisition over the PKCE
 * or the implicit OAuth 2.0 flow, and the photovoltaic snapshot built from
 * the IoT feature service's reply.
 *
 * Effects are made explicit. The content of `token.json` is a field of the
 * client. Every HTTP request it issues is appended to the ghost `Requests`
 * log, and the reply each request gets is a parameter of the method that
 * issues it. The clock, `jwt.decode`, `os.urandom` and SHA-256 are
 * parameters too.
 */
module Viessmann {
  import opened Common
  import opened JsonValue
  import opened Config
  import opened IoT
  import opened OAuth
  import Pkce

  // ---------------------------------------------------------------------
  // The token cache

  /** The content of `token.json`. */
  datatype TokenFile = NoFile | Corrupt | Parsed(content: Json)

  /** `load_cached_token`: a missing or corrupted file reads as `{}`. */
  function LoadedContent(file: TokenFile): (content: Json)
    ensures file.Parsed? ==> content == file.content
    ensures !file.Parsed? ==> content.JObj? && Keys(content.fields) == []
  {
    match file
    case Parsed(content) => content
    case _ => JObj([])
  }

  /** `load_cached_token().get("token")`; `.get` raises on a file that
      holds JSON other than an object. */
  function CachedToken(file: TokenFile): (cached: Result<Json>)
    ensures cached.Err? <==> file.Parsed? && !file.content.JObj?
    ensures (file.NoFile? || file.Corrupt?) ==> cached == Ok(JNull)
  {
    match LoadedContent(file)
    case JObj(fields) => Ok(GetOrNone(fields, "token"))
    case _ => Err(AttributeError)
  }

  /** What `save_token(token)` writes: `{"token": token}`. */
  function SavedFile(token: Json): TokenFile {
    Parsed(JObj([("token", token)]))
  }

  /** A saved token is what the next load finds. */
  lemma SavedTokenIsCached(token: Json)
    ensures CachedToken(SavedFile(token)) == Ok(token)
  {
  }

  // ---------------------------------------------------------------------
  // Token validity

  /** The claims `jwt.decode` returns, reduced to the `exp` claim
      (section 4.1.4 of RFC 7519). */
  datatype Claims = Claims(exp: Option<Number>)

  /** `is_token_valid` given what `jwt.decode` made of the token (None for a
      decode error) and `time.time()`. */
  function IsTokenValid(decoded: Option<Claims>, now: real): (valid: bool)
    ensures valid <==> decoded.Some? && decoded.value.exp.Some?
                       && decoded.value.exp.value.Value() != 0.0
                       && decoded.value.exp.value.Value() > now + 60.0
  {
    match decoded
    case None => false
    case Some(claims) =>
      match claims.exp
      case None => false
      case Some(exp) => exp.Value() != 0.0 && exp.Value() > now + 60.0
  }

  /** A token judged valid stays unexpired for at least the next 60 seconds. */
  lemma ValidTokenOutlivesMargin(decoded: Option<Claims>, now: real, later: real)
    requires IsTokenValid(decoded, now)
    requires now <= later <= now + 60.0
    ensures decoded.value.exp.value.Value() > later
  {
  }

  /** Validity only shrinks as time passes. */
  lemma ValidityIsMonotone(decoded: Option<Claims>, earlier: real, now: real)
    requires earlier <= now
    ensures IsTokenValid(decoded, now) ==> IsTokenValid(decoded, earlier)
  {
  }

  /** `jwt.decode` applied to a cached value: anything but a string is a
      decode error. */
  function Decode(cached: Json, jwt: string -> Option<Claims>): (claims: Option<Claims>)
    ensures claims.Some? ==> cached.JStr?
    ensures cached.JStr? ==> claims == jwt(cached.s)
  {
    if cached.JStr? then jwt(cached.s) else None
  }

  /** The test `cached_token and self.is_token_valid(cached_token)`: only a
      non-empty string whose claims are valid is reused. */
  predicate Reusable(cached: Json, jwt: string -> Option<Claims>, now: real)
    ensures Reusable(cached, jwt, now) <==> cached.JStr? && cached.s != "" && IsTokenValid(jwt(cached.s), now)
  {
    Truthy(cached) && IsTokenValid(Decode(cached, jwt), now)
  }

  // ---------------------------------------------------------------------
  // Requests and the flows

  datatype Request =
    | AuthorizeGet(url: string, params: seq<(string, string)>, username: string, password: string)
    | TokenPost(url: string, form: seq<(string, string)>)
    | FeaturesGet(url: string, authorization: string, filter: seq<string>)

  function PkceAuthorizeRequest(iam: IAMConfig, challenge: string): Request {
    AuthorizeGet(iam.baseUrl + "/authorize", PkceAuthorizeParams(iam, challenge), iam.username, iam.password)
  }

  function ImplicitAuthorizeRequest(iam: IAMConfig): Request {
    AuthorizeGet(iam.baseUrl + "/authorize", ImplicitAuthorizeParams(iam), iam.username, iam.password)
  }

  /** The requests of the PKCE flow: the token request is issued only when
      the authorization request did not raise. */
  function PkceRequests(iam: IAMConfig, verifier: string, challenge: string,
                        authorize: AuthorizeResponse): (requests: seq<Request>)
    ensures 1 <= |requests| <= 2 && requests[0] == PkceAuthorizeRequest(iam, challenge)
    ensures |requests| == 2 <==> !RaisesForStatus(authorize.status)
    ensures |requests| == 2 ==> requests[1] == TokenRequest(iam, verifier, AuthorizationCode(authorize).value)
  {
    var code := AuthorizationCode(authorize);
    if code.Err? then [PkceAuthorizeRequest(iam, challenge)]
    else [PkceAuthorizeRequest(iam, challenge), TokenRequest(iam, verifier, code.value)]
  }

  function TokenRequest(iam: IAMConfig, verifier: string, code: Option<string>): Request {
    TokenPost(iam.baseUrl + "/token", ExchangeForm(iam, verifier, code))
  }

  /** The outcome of `get_access_token_pkce`. */
  function PkceToken(authorize: AuthorizeResponse, exchange: TokenResponse): (token: Result<Json>)
    ensures RaisesForStatus(authorize.status) ==> token == Err(HttpError(authorize.status))
    ensures !RaisesForStatus(authorize.status) ==> token == ExchangedToken(exchange)
  {
    match AuthorizationCode(authorize)
    case Err(e) => Err(e)
    case Ok(_) => ExchangedToken(exchange)
  }

  /** The requests of the flow `use_pkce_flow` selects. */
  function FlowRequests(iam: IAMConfig, verifier: string, challenge: string,
                        authorize: AuthorizeResponse): (requests: seq<Request>)
    ensures 1 <= |requests| <= 2 && requests[0].AuthorizeGet?
    ensures |requests| == 2 <==> iam.usePkceFlow && !RaisesForStatus(authorize.status)
  {
    if iam.usePkceFlow then PkceRequests(iam, verifier, challenge, authorize)
    else [ImplicitAuthorizeRequest(iam)]
  }

  /** The token of the flow `use_pkce_flow` selects. */
  function FlowToken(iam: IAMConfig, authorize: AuthorizeResponse, exchange: TokenResponse): (token: Result<Json>)
    ensures RaisesForStatus(authorize.status) ==> token == Err(HttpError(authorize.status))
    ensures !iam.usePkceFlow ==> token == ImplicitAccessToken(authorize)
  {
    if iam.usePkceFlow then PkceToken(authorize, exchange) else ImplicitAccessToken(authorize)
  }

  /** The PKCE flow asks for `response_type=code` and the implicit flow for
      `response_type=id_token token`, exactly as the flag says. */
  lemma FlowSelection(iam: IAMConfig, verifier: string, challenge: string, authorize: AuthorizeResponse)
    ensures var first := FlowRequests(iam, verifier, challenge, authorize)[0];
            first.AuthorizeGet?
            && (Param(first.params, "response_type") == Some("code") <==> iam.usePkceFlow)
            && (Param(first.params, "response_type") == Some("id_token token") <==> !iam.usePkceFlow)
  {
    if iam.usePkceFlow {
      PkceAuthorizeParamsCarry(iam, challenge);
    } else {
      ImplicitAuthorizeParamsCarry(iam);
    }
  }

  /** The token request proves possession: it carries the verifier that
      goes with the challenge the authorization request carried (the client
      keeps the two bound from its construction), and the code that request's
      redirect returned (sections 4.3 and 4.5 of RFC 7636). An authorization
      request that raises is not followed by a token request. */
  lemma PkceBindsVerifier(iam: IAMConfig, verifier: string, challenge: string, authorize: AuthorizeResponse)
    ensures var reqs := PkceRequests(iam, verifier, challenge, authorize);
            && |reqs| == (if AuthorizationCode(authorize).Ok? then 2 else 1)
            && reqs[0].AuthorizeGet?
            && Param(reqs[0].params, "code_challenge_method") == Some("S256")
            && Param(reqs[0].params, "code_challenge") == Some(challenge)
            && (|reqs| == 2 ==>
                  && reqs[1].TokenPost?
                  && Param(reqs[1].form, "code_verifier") == Some(verifier)
                  && Param(reqs[1].form, "code") == AuthorizationCode(authorize).value)
  {
    var code := AuthorizationCode(authorize);
    PkceAuthorizeParamsCarry(iam, challenge);
    if code.Ok? {
      ExchangeFormCarries(iam, verifier, code.value);
    }
  }

  // ---------------------------------------------------------------------
  // Telemetry

  const SolarFeature: string := "photovoltaic.production.current"
  const BatteryFeature: string := "ess.power"
  const GridFeature: string := "pcc.transfer.power.exchange"
  const ChargeFeature: string := "ess.stateOfCharge"

  /** The `filter` list of the feature request. */
  const FeatureFilter: seq<string> := [SolarFeature, BatteryFeature, GridFeature, ChargeFeature]

  /** Reply to the feature GET; `body` is None when it is not JSON or does
      not validate as an `IoTFeatureResponse`. */
  datatype FeaturesResponse = FeaturesResponse(status: int, body: Option<IoTFeatureResponse>)

  /** `get_device_features` once the reply is in. */
  function DeviceFeatures(reply: FeaturesResponse): (features: Result<IoTFeatureResponse>)
    ensures features.Err? <==> RaisesForStatus(reply.status) || reply.body.None?
    ensures features.Ok? ==> features.value == reply.body.value
  {
    if RaisesForStatus(reply.status) then Err(HttpError(reply.status))
    else match reply.body
      case None => Err(ValidationError)
      case Some(features) => Ok(features)
  }

  /** `get_feature_value`: the value of the first entry named `name`. */
  function FeatureValue(data: seq<IoTFeature>, name: string): (r: Option<Number>)
    ensures r.None? <==> forall k | 0 <= k < |data| :: data[k].feature != name
    ensures r.Some? ==> exists k | 0 <= k < |data| ::
              data[k].feature == name && data[k].properties.value.value == r.value
              && forall j | 0 <= j < k :: data[j].feature != name
  {
    if |data| == 0 then None
    else if data[0].feature == name then Some(data[0].properties.value.value)
    else
      var r := FeatureValue(data[1..], name);
      assert forall k | 1 <= k < |data| :: data[k] == data[1..][k - 1];
      if r.Some? then
        var k :| 0 <= k < |data| - 1 && data[1..][k].feature == name
                  && data[1..][k].properties.value.value == r.value
                  && forall j | 0 <= j < k :: data[1..][j].feature != name;
        assert data[k + 1].feature == name;
        r
      else r
  }

  /** Entries after the first match are never looked at. */
  lemma {:induction false} FirstMatchWins(data: seq<IoTFeature>, more: seq<IoTFeature>, name: string)
    requires exists k | 0 <= k < |data| :: data[k].feature == name
    ensures FeatureValue(data + more, name) == FeatureValue(data, name)
  {
    if data[0].feature != name {
      assert (data + more)[1..] == data[1..] + more;
      var k :| 0 <= k < |data| && data[k].feature == name;
      assert data[1..][k - 1].feature == name;
      FirstMatchWins(data[1..], more, name);
    }
  }

  /** The arithmetic of `get_photovoltaic_data`: the solar reading is kW and
      becomes W, the household draw is derived from the three power
      readings, and a missing power reading makes the arithmetic raise
      TypeError. A missing state of charge is not an error. */
  function Snapshot(features: IoTFeatureResponse): (pv: Result<PhotovoltaicData>)
    ensures pv.Ok? <==> FeatureValue(features.data, SolarFeature).Some?
                        && FeatureValue(features.data, BatteryFeature).Some?
                        && FeatureValue(features.data, GridFeature).Some?
    ensures pv.Err? ==> pv.error == TypeError
    ensures pv.Ok? ==>
              && pv.value.solarPower.Value() == 1000.0 * FeatureValue(features.data, SolarFeature).value.Value()
              && pv.value.batteryPower == FeatureValue(features.data, BatteryFeature).value
              && pv.value.gridExchange == FeatureValue(features.data, GridFeature).value
              && pv.value.stateOfCharge == FeatureValue(features.data, ChargeFeature)
              && pv.value.household.Value()
                 == pv.value.solarPower.Value() + pv.value.batteryPower.Value() + pv.value.gridExchange.Value()
  {
    var solar := FeatureValue(features.data, SolarFeature);
    if solar.None? then Err(TypeError)
    else
      var solarPower := Times(solar.value, 1000);
      var battery := FeatureValue(features.data, BatteryFeature);
      var grid := FeatureValue(features.data, GridFeature);
      var charge := FeatureValue(features.data, ChargeFeature);
      if battery.None? || grid.None? then Err(TypeError)
      else
        Ok(PhotovoltaicData(solarPower, battery.value, grid.value, charge,
                            Plus(Plus(solarPower, battery.value), grid.value)))
  }

  /** `Authorization: Bearer {token}`, with Python's rendering of the token. */
  function BearerHeader(token: Json): (header: string)
    ensures |header| >= 7 && header[..7] == "Bearer "
    ensures token.JStr? ==> header[7..] == token.s
  {
    "Bearer " + Str(token)
  }

  function FeaturesUrl(iot: IoTConfig): (url: string)
    ensures |url| > |iot.baseUrl| && url[..|iot.baseUrl|] == iot.baseUrl
    ensures |url| >= 19 && url[|url| - 19..] == "/devices/0/features"
  {
    iot.baseUrl + "/features/installations/" + iot.installationId + "/gateways/" + iot.gatewayId
    + "/devices/0/features"
  }

  // ---------------------------------------------------------------------
  // The client

  class Client {
    const config: ViessmannConfig
    const sha256: seq<Byte> -> Pkce.Digest
    const codeVerifier: string
    const codeChallenge: string

    /** The content of `token.json`. */
    var tokenFile: TokenFile

    /** Every HTTP request issued, in order. */
    ghost var Requests: seq<Request>

    /** What `get_token` returns from the current cache, the clock, the
        token decoder and the replies of the identity service. */
    function TokenOutcome(now: real, jwt: string -> Option<Claims>, authorize: AuthorizeResponse,
                          exchange: TokenResponse): Result<Json>
      reads this
    {
      match CachedToken(tokenFile)
      case Err(e) => Err(e)
      case Ok(cached) => if Reusable(cached, jwt, now) then Ok(cached) else FlowToken(config.iam, authorize, exchange)
    }

    /** What `token.json` holds after `get_token`: the flow's token when a
        flow ran and did not raise, the old content otherwise. */
    function TokenFileAfter(now: real, jwt: string -> Option<Claims>, authorize: AuthorizeResponse,
                            exchange: TokenResponse): TokenFile
      reads this
    {
      match CachedToken(tokenFile)
      case Err(_) => tokenFile
      case Ok(cached) =>
        if Reusable(cached, jwt, now) then tokenFile
        else match FlowToken(config.iam, authorize, exchange)
          case Ok(token) => SavedFile(token)
          case Err(_) => tokenFile
    }

    /** The requests `get_token` issues from the current cache. */
    ghost function TokenRequests(now: real, jwt: string -> Option<Claims>, authorize: AuthorizeResponse): seq<Request>
      reads this
    {
      match CachedToken(tokenFile)
      case Err(_) => []
      case Ok(cached) =>
        if Reusable(cached, jwt, now) then [] else FlowRequests(config.iam, codeVerifier, codeChallenge, authorize)
    }

    /** `Viessmann.__init__`, given `os.urandom(40)`. */
    constructor (config: ViessmannConfig, random: seq<Byte>, sha256: seq<Byte> -> Pkce.Digest, tokenFile: TokenFile)
      requires |random| == Pkce.RandomLength
      ensures Pkce.IsCodeVerifier(codeVerifier)
      ensures this.config == config && this.sha256 == sha256 && this.tokenFile == tokenFile
      ensures codeVerifier == Pkce.CodeVerifier(random)
      ensures codeChallenge == Pkce.CodeChallenge(codeVerifier, sha256)
      ensures Requests == []
    {
      this.config := config;
      this.sha256 := sha256;
      this.tokenFile := tokenFile;
      var verifier := Pkce.CodeVerifier(random);
      Pkce.VerifierIsWellFormed(random);
      codeVerifier := verifier;
      codeChallenge := Pkce.CodeChallenge(verifier, sha256);
      Requests := [];
    }

    method GetAuthorizationCode(iam: IAMConfig, reply: AuthorizeResponse) returns (code: Result<Option<string>>)
      modifies this`Requests
      ensures Requests == old(Requests) + [PkceAuthorizeRequest(iam, codeChallenge)]
      ensures code == AuthorizationCode(reply)
    {
      Requests := Requests + [PkceAuthorizeRequest(iam, codeChallenge)];
      code := AuthorizationCode(reply);
    }

    method LoadCachedToken() returns (content: Json)
      ensures content == LoadedContent(tokenFile)
    {
      content := LoadedContent(tokenFile);
    }

    method SaveToken(token: Json)
      modifies this`tokenFile
      ensures tokenFile == SavedFile(token)
    {
      tokenFile := SavedFile(token);
    }

    /** The implicit flow. */
    method GetAccessToken(iam: IAMConfig, reply: AuthorizeResponse) returns (token: Result<Json>)
      modifies this`Requests
      ensures Requests == old(Requests) + [ImplicitAuthorizeRequest(iam)]
      ensures token == ImplicitAccessToken(reply)
    {
      Requests := Requests + [ImplicitAuthorizeRequest(iam)];
      token := ImplicitAccessToken(reply);
    }

    /** The PKCE flow: authorization request, then code exchange. */
    method GetAccessTokenPkce(iam: IAMConfig, authorize: AuthorizeResponse, exchange: TokenResponse)
      returns (token: Result<Json>)
      modifies this`Requests
      ensures Requests == old(Requests) + PkceRequests(iam, codeVerifier, codeChallenge, authorize)
      ensures token == PkceToken(authorize, exchange)
    {
      var code := GetAuthorizationCode(iam, authorize);
      if code.Err? {
        return Err(code.error);
      }
      Requests := Requests + [TokenRequest(iam, codeVerifier, code.value)];
      token := ExchangedToken(exchange);
    }

    /** `get_token`: reuse a valid cached token; otherwise run the configured
        flow and save what it returns before returning it. A flow that raises
        saves nothing. */
    method GetToken(now: real, jwt: string -> Option<Claims>, authorize: AuthorizeResponse, exchange: TokenResponse)
      returns (token: Result<Json>)
      modifies this`Requests, this`tokenFile
      ensures CachedToken(old(tokenFile)).Err? ==>
                token == CachedToken(old(tokenFile)) && Requests == old(Requests) && tokenFile == old(tokenFile)
      ensures CachedToken(old(tokenFile)).Ok? && Reusable(CachedToken(old(tokenFile)).value, jwt, now) ==>
                token == CachedToken(old(tokenFile)) && Requests == old(Requests) && tokenFile == old(tokenFile)
      ensures CachedToken(old(tokenFile)).Ok? && !Reusable(CachedToken(old(tokenFile)).value, jwt, now) ==>
                && Requests == old(Requests) + FlowRequests(config.iam, codeVerifier, codeChallenge, authorize)
                && token == FlowToken(config.iam, authorize, exchange)
                && tokenFile == (if token.Ok? then SavedFile(token.value) else old(tokenFile))
      ensures token == old(TokenOutcome(now, jwt, authorize, exchange))
      ensures Requests == old(Requests) + old(TokenRequests(now, jwt, authorize))
      ensures tokenFile == old(TokenFileAfter(now, jwt, authorize, exchange))
    {
      var iam := config.iam;
      var content := LoadCachedToken();
      if !content.JObj? {
        return Err(AttributeError);
      }
      var cached := GetOrNone(content.fields, "token");
      if Truthy(cached) && IsTokenValid(Decode(cached, jwt), now) {
        return Ok(cached);
      }
      if iam.usePkceFlow {
        token := GetAccessTokenPkce(iam, authorize, exchange);
      } else {
        token := GetAccessToken(iam, authorize);
      }
      if token.Err? {
        return token;
      }
      SaveToken(token.value);
    }

    method GetDeviceFeatures(token: Json, iot: IoTConfig, reply: FeaturesResponse)
      returns (features: Result<IoTFeatureResponse>)
      modifies this`Requests
      ensures Requests == old(Requests) + [FeaturesGet(FeaturesUrl(iot), BearerHeader(token), FeatureFilter)]
      ensures features == DeviceFeatures(reply)
    {
      Requests := Requests + [FeaturesGet(FeaturesUrl(iot), BearerHeader(token), FeatureFilter)];
      features := DeviceFeatures(reply);
    }

    /** `get_photovoltaic_data`: token, feature request with that token,
        then the snapshot. Any step that raises ends the call. */
    method GetPhotovoltaicData(now: real, jwt: string -> Option<Claims>, authorize: AuthorizeResponse,
                               exchange: TokenResponse, reply: FeaturesResponse)
      returns (pv: Result<PhotovoltaicData>)
      modifies this`Requests, this`tokenFile
      ensures tokenFile == old(TokenFileAfter(now, jwt, authorize, exchange))
      ensures old(TokenOutcome(now, jwt, authorize, exchange)).Err? ==>
                && pv == Err(old(TokenOutcome(now, jwt, authorize, exchange)).error)
                && Requests == old(Requests) + old(TokenRequests(now, jwt, authorize))
      ensures old(TokenOutcome(now, jwt, authorize, exchange)).Ok? ==>
                && Requests == old(Requests) + old(TokenRequests(now, jwt, authorize))
                   + [FeaturesGet(FeaturesUrl(config.iot),
                                  BearerHeader(old(TokenOutcome(now, jwt, authorize, exchange)).value), FeatureFilter)]
                && pv == match DeviceFeatures(reply) case Err(e) => Err(e) case Ok(features) => Snapshot(features)
    {
      var token := GetToken(now, jwt, authorize, exchange);
      if token.Err? {
        return Err(token.error);
      }
      var features := GetDeviceFeatures(token.value, config.iot, reply);
      if features.Err? {
        return Err(features.error);
      }
      pv := Snapshot(features.value);
    }
  }
}
