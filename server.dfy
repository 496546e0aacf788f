/**
 * The proxy variant's request handler (`forward_request`) and its two conversions between
 * actix and hyper: a GET is answered from the cache while its entry is fresh; otherwise the
 * request is converted, fetched from the origin, cached when it is a non-empty 2xx answer
 * to a GET, and returned marked `x-shadowstep-cache: MISS`.
 */
module Server {

  import opened Wrappers
  import opened Text
  import opened Headers
  import opened Http
  import opened Urls
  import opened Util
  import opened Cache
  import opened Fetcher

  /** The response header telling whether the cache answered; `X-Shadowstep-Cache` once normalised. */
  const CacheStatusHeader := "x-shadowstep-cache"

  /** The version mapping: each named version to itself, any other to HTTP/1.1. */
  function ToHyperVersion(v: Version): (r: Version)
    ensures IsNamedVersion(r)
    ensures IsNamedVersion(v) ==> r == v
    ensures !IsNamedVersion(v) ==> r == Http11
  {
    match v
    case OtherVersion(_) => Http11
    case _ => v
  }

  /** The hyper request once its URI has parsed: method, headers and body stream carried over. */
  function HyperRequest(req: Request, uri: Uri): Request {
    Request(req.verb, uri, ToHyperVersion(req.version), req.headers, req.body)
  }

  /**
   * `actix_to_hyper_request`: the builder is given the URI's text to parse again and every
   * header in turn; the only way it fails is that parse, reported as an `Http` error.
   */
  method ActixToHyperRequest(req: Request, parseUri: UriParser) returns (r: Result<Request, ShadowError>)
    ensures parseUri(req.uri.text).Failure? ==> r == Failure(Http(parseUri(req.uri.text).error))
    ensures parseUri(req.uri.text).Success? ==>
      && r.Success? && r.value.verb == req.verb && r.value.uri == parseUri(req.uri.text).value
      && r.value.version == ToHyperVersion(req.version) && r.value.headers == req.headers && r.value.body == req.body
  {
    var parsed := parseUri(req.uri.text);
    var headers: HeaderList := [];
    var i := 0;
    while i < |req.headers|
      invariant 0 <= i <= |req.headers|
      invariant headers == req.headers[..i]
    {
      headers := headers + [req.headers[i]];
      i := i + 1;
    }
    if parsed.Failure? {
      return Failure(Http(parsed.error));
    }
    r := Success(Request(req.verb, parsed.value, ToHyperVersion(req.version), headers, req.body));
  }

  /** Copying a hyper header map into an actix builder with `insert_header`: the last value of each name wins. */
  method CopyHeadersReplacing(hs: HeaderList) returns (m: HeaderMap)
    ensures m == Keyed(hs)
    ensures forall n :: n in m <==> ValuesOf(hs, n) != []
    ensures forall n :: n in m ==> m[n] == [ValuesOf(hs, n)[|ValuesOf(hs, n)| - 1]]
  {
    m := map[];
    var i := 0;
    while i < |hs|
      invariant 0 <= i <= |hs|
      invariant m == Keyed(hs[..i])
    {
      assert hs[..i + 1][..i] == hs[..i];
      m := InsertHeader(m, hs[i].name, hs[i].value);
      i := i + 1;
    }
    assert hs[..|hs|] == hs;
    forall n ensures (n in m <==> ValuesOf(hs, n) != []) && (n in m ==> m[n] == [ValuesOf(hs, n)[|ValuesOf(hs, n)| - 1]]) {
      KeyedValues(hs, n);
    }
  }

  /** `hyper_to_actix_response`: status and body kept, headers copied by `insert_header`. It cannot fail. */
  method HyperToActixResponse(o: OriginResponse) returns (resp: Response)
    ensures resp == Response(o.status, Keyed(o.headers), Bytes(o.body))
  {
    var headers := CopyHeadersReplacing(o.headers);
    resp := Response(o.status, headers, Bytes(o.body));
  }

  /** A response built from a status, a hyper header list and a body, then marked with `mark`. */
  function Marked(status: StatusCode, hs: HeaderList, body: Bytes, mark: string): Response {
    Response(status, Keyed(hs)[CacheStatusHeader := [mark]], Bytes(body))
  }

  /** The answer to a cache hit. */
  function HitResponse(c: CachedResponse): Response {
    Marked(c.status, c.headers, c.body, "HIT")
  }

  /** The answer to a successful origin fetch. */
  function MissResponse(o: OriginResponse): Response {
    Marked(o.status, o.headers, o.body, "MISS")
  }

  /**
   * A marked response carries the mark as the only value of the cache header, and every
   * other name the header list holds with its last value.
   */
  lemma MarkedHeaders(status: StatusCode, hs: HeaderList, body: Bytes, mark: string, n: string)
    ensures var r := Marked(status, hs, body, mark);
      && r.status == status && r.body == Bytes(body)
      && r.headers[CacheStatusHeader] == [mark]
      && (n != CacheStatusHeader ==> (n in r.headers <==> ValuesOf(hs, n) != []))
      && (n != CacheStatusHeader && n in r.headers ==> r.headers[n] == [ValuesOf(hs, n)[|ValuesOf(hs, n)| - 1]])
  {
    KeyedValues(hs, n);
  }

  /** A response is stored exactly when the request was a GET and the origin answered 2xx with a non-empty body. */
  predicate ShouldCache(verb: Method, o: OriginResponse) {
    verb == GET && IsSuccess(o.status) && |o.body| > 0
  }

  function AsCached(o: OriginResponse): CachedResponse {
    CachedResponse(o.status, o.headers, o.body)
  }

  /** A GET that the cache can answer. */
  predicate IsHit(req: Request, store: Store, ttl: nat, now: nat) {
    req.verb == GET && Lookup(store, req.uri.text, ttl, now).Some?
  }

  /**
   * `forward_request`, the handler of every route. `now` is the cache clock when the request
   * arrives and the lookup is made; `insertAt` is the clock once the origin has answered, when
   * a stored miss is inserted and stamped.
   */
  method ForwardRequest(req: Request, cache: CdnCache, fetcher: OriginFetcher, parseUrl: UrlParser,
                        parseUri: UriParser, client: Client, now: nat, insertAt: nat)
    returns (resp: Response, sent: Option<Request>)
    requires cache.Valid()
    requires now <= insertAt
    modifies cache
    ensures cache.Valid()
    ensures IsHit(req, old(cache.entries), cache.ttl, now) ==>
      && resp == HitResponse(Lookup(old(cache.entries), req.uri.text, cache.ttl, now).value)
      && sent == None && cache.entries == old(cache.entries)
    ensures !IsHit(req, old(cache.entries), cache.ttl, now) && parseUri(req.uri.text).Failure? ==>
      && resp == TextResponse(InternalServerError, "request conversion error: " + Message(Http(parseUri(req.uri.text).error)))
      && sent == None && cache.entries == old(cache.entries)
    ensures !IsHit(req, old(cache.entries), cache.ttl, now) && parseUri(req.uri.text).Success? ==>
      var out := FetchFromOrigin(fetcher, HyperRequest(req, parseUri(req.uri.text).value), parseUrl, parseUri, client);
      && sent == out.sent
      && (out.result.Failure? ==>
            resp == TextResponse(BadGateway, "origin fetch error: " + Message(out.result.error))
            && cache.entries == old(cache.entries))
      && (out.result.Success? ==> resp == MissResponse(out.result.value))
      && (out.result.Success? && !ShouldCache(req.verb, out.result.value) ==> cache.entries == old(cache.entries))
      && (out.result.Success? && ShouldCache(req.verb, out.result.value) ==>
            var full := Put(old(cache.entries), req.uri.text, AsCached(out.result.value), insertAt);
            Retains(full, cache.entries) && (|full| <= cache.maxCapacity ==> cache.entries == full))
  {
    var key := req.uri.text;
    if req.verb == GET {
      var cached := cache.Get(key, now);
      if cached.Some? {
        var c := cached.value;
        var headers := CopyHeadersReplacing(c.headers);
        headers := headers[CacheStatusHeader := ["HIT"]];
        return Response(c.status, headers, Bytes(c.body)), None;
      }
    }
    var converted := ActixToHyperRequest(req, parseUri);
    if converted.Failure? {
      return TextResponse(InternalServerError, "request conversion error: " + Message(converted.error)), None;
    }
    assert converted.value == HyperRequest(req, parseUri(req.uri.text).value);
    var out := FetchFromOrigin(fetcher, converted.value, parseUrl, parseUri, client);
    sent := out.sent;
    if out.result.Failure? {
      return TextResponse(BadGateway, "origin fetch error: " + Message(out.result.error)), sent;
    }
    var o := out.result.value;
    if req.verb == GET && IsSuccess(o.status) {
      if |o.body| > 0 {
        cache.Insert(key, o.status, o.headers, o.body, insertAt);
      }
    }
    resp := HyperToActixResponse(o);
    resp := resp.(headers := resp.headers[CacheStatusHeader := ["MISS"]]);
  }

  /**
   * What a stored miss turns into: while the entry is fresh and still held, the next GET
   * for the same key is a hit whose answer is the origin's response marked `HIT` instead of `MISS`.
   */
  lemma ReplayMatchesOrigin(store: Store, key: string, o: OriginResponse, t: nat, ttl: nat, later: nat)
    requires key in store && store[key] == Entry(AsCached(o), t)
    requires later < t + ttl
    ensures Lookup(store, key, ttl, later) == Some(AsCached(o))
    ensures HitResponse(Lookup(store, key, ttl, later).value) ==
      MissResponse(o).(headers := MissResponse(o).headers[CacheStatusHeader := ["HIT"]])
  {
    assert Keyed(o.headers)[CacheStatusHeader := ["MISS"]][CacheStatusHeader := ["HIT"]] == Keyed(o.headers)[CacheStatusHeader := ["HIT"]];
  }
}
