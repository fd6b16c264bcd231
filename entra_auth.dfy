/**
 * The Entra ID glue in front of the tool endpoint: the issuer and resource
 * strings derived from the deployment settings, and the middleware step that
 * turns a verified token payload into the identity record the tool handlers
 * read (client id, scopes, and the `sub` claim under `extra`).
 *
 * Verifying the token's signature, audience and issuer is done by a library
 * and is not part of this model: a request reaches the bridge already
 * carrying the library's result.
 */
module EntraAuth {

  import opened Wrappers
  import Text

  /** A JSON claim of the token whose type matters: absent, a string, or any other value. */
  datatype Claim = Absent | Str(s: string) | NonString

  /** The claims of a verified access token that the bridge reads. */
  datatype Payload = Payload(
    sub: Option<string>,
    oid: Option<string>,
    azp: Option<string>,
    appid: Option<string>,
    scp: Claim,
    exp: Option<int>)

  /** What the token library leaves on the request: the raw token and, when decoded, its payload. */
  datatype VerifiedToken = VerifiedToken(token: string, payload: Option<Payload>)

  /** The `extra` part of the identity record. */
  datatype IdentityExtra = IdentityExtra(sub: Option<string>, oid: Option<string>, claims: Payload)

  /** The identity record handed to the tool handlers. */
  datatype AuthInfo = AuthInfo(
    token: string,
    clientId: string,
    scopes: seq<string>,
    expiresAt: Option<int>,
    extra: IdentityExtra)

  /** The `auth` slot of a request: empty, the token library's result, or the bridged record. */
  datatype RequestAuth = NoAuth | Verified(verified: VerifiedToken) | Bridged(info: AuthInfo)

  /** The well-known login host used when no authority is configured. */
  const DefaultAuthorityPrefix: string := "https://login.microsoftonline.com/"

  /** `${entraAuthority || `https://login.microsoftonline.com/${tenantId}`}/v2.0`. */
  function IssuerBaseUrl(tenantId: string, entraAuthority: Option<string>): (r: string)
    ensures Truthy(entraAuthority) ==> r == entraAuthority.value + "/v2.0"
    ensures !Truthy(entraAuthority) ==> r == DefaultAuthorityPrefix + tenantId + "/v2.0"
  {
    OrElse(entraAuthority, DefaultAuthorityPrefix + tenantId) + "/v2.0"
  }

  /** `api://${entraClientId}`: the protected resource's identifier. */
  function Resource(entraClientId: string): (r: string)
    ensures |r| == 6 + |entraClientId| && r[..6] == "api://" && r[6..] == entraClientId
  {
    "api://" + entraClientId
  }

  /** `azp ?? appid ?? sub ?? ''`: the first claim that is present, else the empty string. */
  function ClientId(p: Payload): (r: string)
    ensures p.azp.Some? ==> r == p.azp.value
    ensures p.azp.None? && p.appid.Some? ==> r == p.appid.value
    ensures p.azp.None? && p.appid.None? ==> r == p.sub.GetOr("")
  {
    if p.azp.Some? then p.azp.value
    else if p.appid.Some? then p.appid.value
    else p.sub.GetOr("")
  }

  /** `scp.split(' ')` when `scp` is a string, otherwise no scopes. */
  function Scopes(p: Payload): (r: seq<string>)
    ensures p.scp.Str? ==> |r| >= 1 && Text.Join(r, ' ') == p.scp.s
    ensures p.scp.Str? ==> forall k :: 0 <= k < |r| ==> ' ' !in r[k]
    ensures !p.scp.Str? ==> r == []
  {
    if p.scp.Str? then
      Text.JoinSplit(p.scp.s, ' ');
      Text.SplitPiecesHaveNoSeparator(p.scp.s, ' ');
      Text.Split(p.scp.s, ' ')
    else []
  }

  /** The record the bridge stores for a token with a payload. */
  function ToAuthInfo(token: string, p: Payload): (r: AuthInfo)
    ensures r.token == token && r.expiresAt == p.exp
    ensures r.clientId == ClientId(p) && r.scopes == Scopes(p)
    ensures r.extra.sub == p.sub && r.extra.oid == p.oid && r.extra.claims == p
  {
    AuthInfo(token, ClientId(p), Scopes(p), p.exp, IdentityExtra(p.sub, p.oid, p))
  }

  /** The part of an HTTP request the bridge reads and overwrites. */
  class Request {
    var auth: RequestAuth

    constructor (auth: RequestAuth)
      ensures this.auth == auth
    {
      this.auth := auth;
    }
  }

  /**
   * `bridgeAuthToMcp`: when the token library left a payload, `req.auth` is
   * replaced by the identity record; otherwise it is left alone. Either way the
   * request is passed on (`nextCalled`).
   */
  method BridgeAuthToMcp(req: Request) returns (nextCalled: bool)
    modifies req
    ensures nextCalled
    ensures old(req.auth).Verified? && old(req.auth).verified.payload.Some? ==>
      req.auth == Bridged(ToAuthInfo(old(req.auth).verified.token, old(req.auth).verified.payload.value))
    ensures !(old(req.auth).Verified? && old(req.auth).verified.payload.Some?) ==> req.auth == old(req.auth)
  {
    match req.auth {
      case Verified(VerifiedToken(token, Some(p))) =>
        req.auth := Bridged(ToAuthInfo(token, p));
      case _ =>
    }
    nextCalled := true;
  }

  /**
   * The identity record the tool layer passes to a handler as
   * `extra.authInfo`: the request's `auth` slot, which only has an `extra.sub`
   * once bridged.
   */
  function HandlerAuthInfo(auth: RequestAuth): Option<AuthInfo> {
    if auth.Bridged? then Some(auth.info) else None
  }
}
