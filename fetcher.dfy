/**
 * The proxy variant's origin fetcher (`OriginFetcher`): it resolves an incoming request's
 * path-and-query against the configured origin URL, drops the `Host` header, sends the
 * request once through hyper's client and buffers the whole response body.
 * The fetcher is an immutable value (the base URL; the client is the `Client` parameter),
 * so fetching can never change it.
 */
module Fetcher {

  import opened Wrappers
  import opened Text
  import opened Headers
  import opened Http
  import opened Urls
  import opened Util
  import Config

  datatype OriginFetcher = OriginFetcher(originBaseUrl: Url)

  /** `OriginFetcher::new`: fails exactly when the configured origin URL does not parse. */
  function New(config: Config.Config, parse: UrlParser): (r: Result<OriginFetcher, ShadowError>)
    ensures r.Success? <==> parse(config.originUrl).Success?
    ensures r.Success? ==> r.value.originBaseUrl == parse(config.originUrl).value
    ensures r.Failure? ==> r.error == UrlParse(parse(config.originUrl).error)
  {
    match parse(config.originUrl)
    case Success(u) => Success(OriginFetcher(u))
    case Failure(e) => Failure(UrlParse(e))
  }

  /** The reference resolved against the base: the request's path-and-query, or `/` without one. */
  function TargetUrl(f: OriginFetcher, req: Request, parseUrl: UrlParser): Result<Url, string> {
    var pathAndQuery := req.uri.pathAndQuery.GetOr("/");
    Join(f.originBaseUrl, pathAndQuery, parseUrl)
  }

  /** The target URL as an http `Uri`: a join failure is `UrlParse`, a `Uri` parse failure `UriParse`. */
  function TargetUri(f: OriginFetcher, req: Request, parseUrl: UrlParser, parseUri: UriParser): Result<Uri, ShadowError> {
    match TargetUrl(f, req, parseUrl)
    case Failure(e) => Failure(UrlParse(e))
    case Success(target) =>
      match parseUri(Serialize(target))
      case Failure(e) => Failure(UriParse(e))
      case Success(uri) => Success(uri)
  }

  /** A fetch: its result, and the request handed to the client, if one was. */
  datatype Fetched = Fetched(result: Result<OriginResponse, ShadowError>, sent: Option<Request>)

  /**
   * `fetch_from_origin`. The owned request is edited step by step (target URI, then `Host`
   * removed) and sent; hyper errors, from sending or from reading the body, become `Hyper`.
   */
  function FetchFromOrigin(f: OriginFetcher, req: Request, parseUrl: UrlParser, parseUri: UriParser, client: Client): (out: Fetched)
    ensures out.sent.Some? <==> TargetUri(f, req, parseUrl, parseUri).Success?
    ensures out.sent.None? ==> out.result == Failure(TargetUri(f, req, parseUrl, parseUri).error)
    ensures out.sent.Some? ==>
      && out.sent.value.uri == TargetUri(f, req, parseUrl, parseUri).value
      && out.sent.value.verb == req.verb
      && out.sent.value.version == req.version
      && out.sent.value.body == req.body
      && (forall n :: ValuesOf(out.sent.value.headers, n) == if n == HostHeader then [] else ValuesOf(req.headers, n))
    ensures out.sent.Some? && out.result.Success? ==>
      client(out.sent.value) == Received(out.result.value.status, out.result.value.headers, Success(out.result.value.body))
    ensures out.sent.Some? && out.result.Failure? ==>
      out.result.error.Hyper? &&
      (client(out.sent.value).TransportFailed? || client(out.sent.value).body.Failure?)
    ensures out.sent.Some? && out.result.Failure? ==>
      var o := client(out.sent.value);
      out.result.error == Hyper(if o.TransportFailed? then o.error.text else o.body.error.text)
  {
    match TargetUri(f, req, parseUrl, parseUri)
    case Failure(e) => Fetched(Failure(e), None)
    case Success(uri) =>
      var outgoing := req.(uri := uri);
      var outgoing := outgoing.(headers := Without(outgoing.headers, {HostHeader}));
      WithoutAllValues(req.headers, {HostHeader});
      match client(outgoing)
      case TransportFailed(e) => Fetched(Failure(Hyper(e.text)), Some(outgoing))
      case Received(status, headers, Failure(e)) => Fetched(Failure(Hyper(e.text)), Some(outgoing))
      case Received(status, headers, Success(body)) => Fetched(Success(OriginResponse(status, headers, body)), Some(outgoing))
  }

  /** A request without a path-and-query is resolved as `/`: the base's path and query are dropped. */
  lemma NoPathResolvesToRoot(f: OriginFetcher, req: Request, parseUrl: UrlParser)
    requires req.uri.pathAndQuery.None?
    requires !CannotBeABase(f.originBaseUrl)
    ensures TargetUrl(f, req, parseUrl) == Success(f.originBaseUrl.(path := "/", query := None))
  {
    var r := "/";
    JoinPathAbsolute(f.originBaseUrl, r, parseUrl);
    SplitQueryNone(r);
    assert DotFree(r) by {
      assert r[1..] == "";
    }
    RemoveDotsIdentity(r);
  }

  /**
   * A path-absolute request target keeps the base's scheme, host and port, replaces the base
   * path with its own (dot segments removed) and brings its own query.
   */
  lemma PathAbsoluteTarget(f: OriginFetcher, req: Request, parseUrl: UrlParser)
    requires req.uri.pathAndQuery.Some? && IsPathAbsolute(req.uri.pathAndQuery.value)
    requires !CannotBeABase(f.originBaseUrl)
    ensures var base := f.originBaseUrl;
      var (path, query) := SplitQuery(req.uri.pathAndQuery.value);
      TargetUrl(f, req, parseUrl) == Success(Url(base.scheme, base.host, base.port, RemoveDots(path), query))
  {
    JoinPathAbsolute(f.originBaseUrl, req.uri.pathAndQuery.value, parseUrl);
  }
}
