/**
 * The parts of the OAuth 2.0 exchanges with the identity service that do
 * not touch the network: the request parameters the client sends and what
 * it takes out of the replies. A redirect's `Location` is given already
 * split into its query and fragment fields (percent-decoding is not
 * modelled); a field without `=` has no value.
 */
module OAuth {
  import opened Common
  import opened JsonValue
  import opened Config

  datatype QueryField = QueryField(name: string, value: Option<string>)

  datatype Url = Url(query: seq<QueryField>, fragment: seq<QueryField>)

  /** Whether `parse_qs` keeps this field under `name`: it drops fields
      without `=` and fields with an empty value. */
  predicate Carries(f: QueryField, name: string) {
    f.name == name && f.value.Some? && f.value.value != ""
  }

  /** `parse_qs(text).get(name, [None])[0]`. */
  function FirstValue(fields: seq<QueryField>, name: string): (r: Option<string>)
    ensures r.None? <==> forall k | 0 <= k < |fields| :: !Carries(fields[k], name)
    ensures r.Some? ==> exists k | 0 <= k < |fields| ::
              Carries(fields[k], name) && fields[k].value.value == r.value
              && forall j | 0 <= j < k :: !Carries(fields[j], name)
  {
    if |fields| == 0 then None
    else if Carries(fields[0], name) then Some(fields[0].value.value)
    else
      var r := FirstValue(fields[1..], name);
      if r.Some? then
        var k :| 0 <= k < |fields| - 1 && Carries(fields[1..][k], name) && fields[1..][k].value.value == r.value
                  && forall j | 0 <= j < k :: !Carries(fields[1..][j], name);
        assert Carries(fields[k + 1], name);
        assert forall j | 0 <= j < k + 1 :: !Carries(fields[j], name) by {
          forall j | 0 <= j < k + 1 ensures !Carries(fields[j], name) {
            if j > 0 { assert fields[j] == fields[1..][j - 1]; }
          }
        }
        r
      else
        assert forall k | 0 <= k < |fields| :: !Carries(fields[k], name) by {
          forall k | 0 <= k < |fields| ensures !Carries(fields[k], name) {
            if k > 0 { assert fields[k] == fields[1..][k - 1]; }
          }
        }
        r
  }

  // ---------------------------------------------------------------------
  // The authorize endpoint

  /** Reply to the authorize GET, sent with redirects disabled. */
  datatype AuthorizeResponse = AuthorizeResponse(status: int, location: Option<Url>)

  /** `urlparse(response.headers.get("Location"))`: a missing header parses
      like an empty URL. */
  function LocationUrl(reply: AuthorizeResponse): (url: Url)
    ensures reply.location.Some? ==> url == reply.location.value
    ensures reply.location.None? ==> forall name :: FirstValue(url.query, name).None? && FirstValue(url.fragment, name).None?
  {
    match reply.location
    case Some(url) => url
    case None => Url([], [])
  }

  /** The outcome of `get_authorization_code` once the reply is in: an HTTP
      error is raised, a redirect yields the first `code` of its query
      (None when there is none) and any other reply the empty string. */
  function AuthorizationCode(reply: AuthorizeResponse): (code: Result<Option<string>>)
    ensures code.Err? <==> RaisesForStatus(reply.status)
    ensures code.Err? ==> code.error == HttpError(reply.status)
    ensures reply.status == 302 ==> code == Ok(FirstValue(LocationUrl(reply).query, "code"))
    ensures !RaisesForStatus(reply.status) && reply.status != 302 ==> code == Ok(Some(""))
  {
    if RaisesForStatus(reply.status) then Err(HttpError(reply.status))
    else if reply.status == 302 then Ok(FirstValue(LocationUrl(reply).query, "code"))
    else Ok(Some(""))
  }

  /** Python's value for an optional string: the string or None. */
  function OptionalString(v: Option<string>): Json {
    match v
    case Some(s) => JStr(s)
    case None => JNull
  }

  /** The outcome of `get_access_token` (implicit flow) once the reply is
      in: the first `access_token` of the redirect's fragment. */
  function ImplicitAccessToken(reply: AuthorizeResponse): (token: Result<Json>)
    ensures token.Err? <==> RaisesForStatus(reply.status)
    ensures token.Err? ==> token.error == HttpError(reply.status)
    ensures reply.status == 302 ==> token == Ok(OptionalString(FirstValue(LocationUrl(reply).fragment, "access_token")))
    ensures !RaisesForStatus(reply.status) && reply.status != 302 ==> token == Ok(JStr(""))
  {
    if RaisesForStatus(reply.status) then Err(HttpError(reply.status))
    else if reply.status == 302 then Ok(OptionalString(FirstValue(LocationUrl(reply).fragment, "access_token")))
    else Ok(JStr(""))
  }

  /** The code comes from the query: the fragment does not affect it. */
  lemma CodeIgnoresFragment(r1: AuthorizeResponse, r2: AuthorizeResponse)
    requires r1.status == r2.status && LocationUrl(r1).query == LocationUrl(r2).query
    ensures AuthorizationCode(r1) == AuthorizationCode(r2)
  {
  }

  /** The implicit token comes from the fragment: the query does not
      affect it. */
  lemma ImplicitTokenIgnoresQuery(r1: AuthorizeResponse, r2: AuthorizeResponse)
    requires r1.status == r2.status && LocationUrl(r1).fragment == LocationUrl(r2).fragment
    ensures ImplicitAccessToken(r1) == ImplicitAccessToken(r2)
  {
  }

  // ---------------------------------------------------------------------
  // The token endpoint

  /** Reply to the token POST; `body` is None when it is not JSON. */
  datatype TokenResponse = TokenResponse(status: int, body: Option<Json>)

  /** `response.json().get("access_token")` after `raise_for_status`. */
  function ExchangedToken(reply: TokenResponse): (token: Result<Json>)
    ensures token.Err? <==> RaisesForStatus(reply.status) || reply.body.None? || !reply.body.value.JObj?
    ensures token.Ok? ==> token.value == GetOrNone(reply.body.value.fields, "access_token")
  {
    if RaisesForStatus(reply.status) then Err(HttpError(reply.status))
    else match reply.body
      case None => Err(JsonDecodeError)
      case Some(JObj(fields)) => Ok(GetOrNone(fields, "access_token"))
      case Some(_) => Err(AttributeError)
  }

  // ---------------------------------------------------------------------
  // Request parameters

  const Scope: string := "IoT User offline_access"

  /** The query of the PKCE authorization request (RFC 7636 section 4.3). */
  function PkceAuthorizeParams(iam: IAMConfig, challenge: string): seq<(string, string)> {
    [("client_id", iam.clientId), ("scope", Scope), ("response_type", "code"),
     ("code_challenge", challenge), ("code_challenge_method", "S256"),
     ("redirect_uri", iam.redirectUri)]
  }

  /** The query of the implicit-flow authorization request. */
  function ImplicitAuthorizeParams(iam: IAMConfig): seq<(string, string)> {
    [("client_id", iam.clientId), ("redirect_uri", iam.redirectUri),
     ("response_type", "id_token token"), ("nonce", "anything_goes")]
  }

  /** The form of the token request (RFC 7636 section 4.5); requests leaves
      out a form field whose value is None, so a missing code is not sent. */
  function ExchangeForm(iam: IAMConfig, verifier: string, code: Option<string>): seq<(string, string)> {
    [("client_id", iam.clientId), ("redirect_uri", iam.redirectUri),
     ("grant_type", "authorization_code"), ("code_verifier", verifier)]
    + (if code.Some? then [("code", code.value)] else [])
  }

  /** The value of the first parameter called `name`. */
  function Param(params: seq<(string, string)>, name: string): (r: Option<string>)
    ensures r.Some? <==> exists k | 0 <= k < |params| :: params[k].0 == name
    ensures r.Some? ==> (name, r.value) in params
  {
    if |params| == 0 then None
    else if params[0].0 == name then Some(params[0].1)
    else
      var r := Param(params[1..], name);
      assert forall k | 1 <= k < |params| :: params[k] == params[1..][k - 1];
      r
  }

  /** `Param` reads the first parameter with the name. */
  lemma {:induction false} ParamAt(params: seq<(string, string)>, name: string, k: nat)
    requires k < |params| && params[k].0 == name
    requires forall j | 0 <= j < k :: params[j].0 != name
    ensures Param(params, name) == Some(params[k].1)
  {
    if k > 0 {
      ParamAt(params[1..], name, k - 1);
    }
  }

  /** The PKCE authorization request asks for a code and carries the S256
      challenge. */
  lemma PkceAuthorizeParamsCarry(iam: IAMConfig, challenge: string)
    ensures Param(PkceAuthorizeParams(iam, challenge), "response_type") == Some("code")
    ensures Param(PkceAuthorizeParams(iam, challenge), "code_challenge") == Some(challenge)
    ensures Param(PkceAuthorizeParams(iam, challenge), "code_challenge_method") == Some("S256")
  {
    var p := PkceAuthorizeParams(iam, challenge);
    ParamAt(p, "response_type", 2);
    ParamAt(p, "code_challenge", 3);
    ParamAt(p, "code_challenge_method", 4);
  }

  /** The implicit authorization request asks for an ID token and an access
      token. */
  lemma ImplicitAuthorizeParamsCarry(iam: IAMConfig)
    ensures Param(ImplicitAuthorizeParams(iam), "response_type") == Some("id_token token")
  {
    ParamAt(ImplicitAuthorizeParams(iam), "response_type", 2);
  }

  /** The token request carries the verifier, and the code exactly when
      there is one. */
  lemma ExchangeFormCarries(iam: IAMConfig, verifier: string, code: Option<string>)
    ensures Param(ExchangeForm(iam, verifier, code), "code_verifier") == Some(verifier)
    ensures Param(ExchangeForm(iam, verifier, code), "code") == code
  {
    var f := ExchangeForm(iam, verifier, code);
    ParamAt(f, "code_verifier", 3);
    if code.Some? {
      ParamAt(f, "code", 4);
    } else {
      assert forall k | 0 <= k < |f| :: f[k].0 != "code";
    }
  }
}
