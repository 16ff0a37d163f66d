/**
 * The OAuth entry route (`GET /api/auth`): it checks the `provider` query
 * parameter against the two supported providers, asks the auth service for
 * a sign-in URL with a callback that carries `returnTo`, and redirects.
 * The auth service's answer is an input.
 */
module AuthRoute {
  import opened Wrappers
  import opened Text
  import UriComponent
  import Utf8

  /** The query parameters the handler reads (`None` when absent). */
  datatype Query = Query(provider: Option<string>, returnTo: Option<string>)

  /** The options passed to `signInWithOAuth`. */
  datatype OAuthRequest = OAuthRequest(provider: string, redirectTo: string, scopes: string)

  /** What `signInWithOAuth` answers. */
  datatype OAuthReply = OAuthFailed(message: string) | OAuthStarted(url: string)

  /** A redirect to a path of this site, or to an absolute URL elsewhere. */
  datatype Redirect = SameOrigin(path: string) | External(url: string)

  /** What one request does: the OAuth call it makes, if any, and where it redirects. */
  datatype Outcome = Outcome(call: Option<OAuthRequest>, redirect: Redirect)

  const DefaultReturnTo: string := "/dashboard"
  const CallbackPrefix: string := "/auth/callback?returnTo="

  predicate Supported(provider: Option<string>)
  {
    Truthy(provider) && (provider.value == "discord" || provider.value == "github")
  }

  /** `searchParams.get('returnTo') || '/dashboard'`. */
  function ReturnTo(q: Query): string
  {
    if Truthy(q.returnTo) then q.returnTo.value else DefaultReturnTo
  }

  function Scopes(provider: string): string
  {
    if provider == "github" then "repo,user" else "identify email"
  }

  /** A template literal renders an unset environment variable as `undefined`. */
  function SiteText(siteUrl: Option<string>): string
  {
    siteUrl.GetOr("undefined")
  }

  function CallbackUrl(siteUrl: Option<string>, returnTo: string): string
  {
    SiteText(siteUrl) + CallbackPrefix + UriComponent.Encode(returnTo)
  }

  /** The OAuth request the handler makes, or `None` when it rejects the provider. */
  function Request(q: Query, siteUrl: Option<string>): (r: Option<OAuthRequest>)
    ensures r.Some? <==> Supported(q.provider)
    ensures r.Some? ==> r.value.provider == q.provider.value
    ensures r.Some? ==> r.value.scopes == (if q.provider.value == "github" then "repo,user" else "identify email")
  {
    if !Supported(q.provider) then None
    else Some(OAuthRequest(q.provider.value, CallbackUrl(siteUrl, ReturnTo(q)), Scopes(q.provider.value)))
  }

  /** The whole handler; `reply` is only consulted when the OAuth call is made. */
  function Handle(q: Query, siteUrl: Option<string>, reply: OAuthReply): (o: Outcome)
    ensures !Supported(q.provider) ==> o == Outcome(None, SameOrigin("/"))
    ensures Supported(q.provider) && reply.OAuthFailed? ==> o.redirect == SameOrigin("/?error=" + reply.message)
    ensures Supported(q.provider) && reply.OAuthStarted? ==> o.redirect == External(reply.url)
    ensures o.call == Request(q, siteUrl)
  {
    match Request(q, siteUrl)
    case None => Outcome(None, SameOrigin("/"))
    case Some(req) =>
      match reply
      case OAuthFailed(message) => Outcome(Some(req), SameOrigin("/?error=" + message))
      case OAuthStarted(url) => Outcome(Some(req), External(url))
  }

  /**
   * The callback URL carries `returnTo` intact: after the fixed prefix comes
   * one query value that decodes back to `returnTo` and holds no `&`, `#` or
   * `=` that could end it or add a parameter. An absent or empty `returnTo`
   * becomes `/dashboard`.
   */
  lemma CallbackCarriesReturnTo(q: Query, siteUrl: Option<string>)
    requires Supported(q.provider)
    ensures var r := Request(q, siteUrl).value.redirectTo;
      && SiteText(siteUrl) + CallbackPrefix <= r
      && var v := r[|SiteText(siteUrl) + CallbackPrefix|..];
      && UriComponent.Decode(v) == Some(if Truthy(q.returnTo) then q.returnTo.value else "/dashboard")
      && forall c :: c in v ==> c != '&' && c != '#' && c != '='
  {
    var v := UriComponent.Encode(ReturnTo(q));
    var r := Request(q, siteUrl).value.redirectTo;
    assert r == (SiteText(siteUrl) + CallbackPrefix) + v;
    assert r[|SiteText(siteUrl) + CallbackPrefix|..] == v;
    UriComponent.DecodeEncode(ReturnTo(q));
    UriComponent.EncodeBytesSafe(Utf8.Encode(ReturnTo(q)));
  }
}
