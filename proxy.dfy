/**
 * `forward_to_upstream`, the reverse-proxy handler of the second variant: it rebuilds the
 * client's request for the upstream server (target URL, filtered headers, `Host`,
 * `X-Forwarded-*`), sends it once and relays the answer with hop-by-hop headers removed,
 * or turns the failure into a 500 or 502 response.
 *
 * The handler reads `upstream_base_url` and `http_client` from its state, fields that no
 * `AppState` in the repository declares; the model gives it a state of its own.
 */
module Proxy {

  import opened Wrappers
  import opened Text
  import opened Headers
  import opened Http
  import opened Urls

  /** The state the handler reads: the upstream base URL (the client is the `Client` parameter). */
  datatype ProxyState = ProxyState(upstreamBaseUrl: Url)

  /** What actix's `connection_info()` reports about the client connection. */
  datatype ConnectionInfo = ConnectionInfo(realIp: Option<string>, scheme: string, host: string)

  /** The hop-by-hop headers neither direction relays. */
  const HopByHop: set<string> :=
    {"connection", "proxy-authenticate", "proxy-authorization", "te", "trailer", "transfer-encoding", "upgrade"}

  /** The request direction also drops the client's `Host`; a new one is set from the base URL. */
  const RequestSkipped: set<string> := HopByHop + {HostHeader}

  const ForwardedFor := "x-forwarded-for"
  const ForwardedProto := "x-forwarded-proto"
  const ForwardedHost := "x-forwarded-host"

  /**
   * The loop that copies the client's headers onto hyper's request builder, skipping the
   * hop-by-hop set and `Host`: the others come out in order, each header unchanged.
   */
  method CopyRequestHeaders(hs: HeaderList) returns (out: HeaderList)
    ensures out == Without(hs, RequestSkipped)
    ensures forall h :: h in out <==> h in hs && h.name !in RequestSkipped
  {
    out := [];
    var i := 0;
    while i < |hs|
      invariant 0 <= i <= |hs|
      invariant out == Without(hs[..i], RequestSkipped)
    {
      var h := hs[i];
      assert hs[..i + 1][..i] == hs[..i];
      if h.name in RequestSkipped {
        // not copied
      } else {
        out := out + [h];
      }
      i := i + 1;
    }
    assert hs[..|hs|] == hs;
    forall h ensures h in out <==> h in hs && h.name !in RequestSkipped {
      WithoutMember(hs, RequestSkipped, h);
    }
  }

  /**
   * The loop that appends the upstream response's headers to actix's response builder,
   * skipping the hop-by-hop set: every other name arrives with all its values in order.
   */
  method CopyResponseHeaders(hs: HeaderList) returns (m: HeaderMap)
    ensures m == Grouped(Without(hs, HopByHop))
    ensures forall n :: n in m <==> n !in HopByHop && ValuesOf(hs, n) != []
    ensures forall n :: n in m ==> m[n] == ValuesOf(hs, n)
  {
    m := map[];
    var i := 0;
    while i < |hs|
      invariant 0 <= i <= |hs|
      invariant m == Grouped(Without(hs[..i], HopByHop))
    {
      var h := hs[i];
      assert hs[..i + 1][..i] == hs[..i];
      if h.name in HopByHop {
        assert Without(hs[..i + 1], HopByHop) == Without(hs[..i], HopByHop);
      } else {
        var kept := Without(hs[..i], HopByHop);
        assert Without(hs[..i + 1], HopByHop) == kept + [h];
        assert (kept + [h])[..|kept|] == kept;
        assert Grouped(kept + [h]) == AppendHeader(Grouped(kept), h.name, h.value);
        m := AppendHeader(m, h.name, h.value);
      }
      i := i + 1;
    }
    assert hs[..|hs|] == hs;
    forall n ensures (n in m <==> n !in HopByHop && ValuesOf(hs, n) != []) && (n in m ==> m[n] == ValuesOf(hs, n)) {
      GroupedValues(Without(hs, HopByHop), n);
      WithoutValues(hs, HopByHop, n);
    }
  }

  /** The port test of the `Host` value: none, 80 or 443 (whatever the scheme) means no port is written. */
  predicate OmitsPort(p: Option<nat>) {
    p.None? || p.value == 80 || p.value == 443
  }

  /**
   * The upstream `Host` value: the base URL's host, followed by `:port` unless the
   * effective port is 80 or 443; none when the base URL has no host.
   */
  function HostHeaderValue(base: Url): (r: Option<string>)
    ensures r.None? <==> base.host.None?
    ensures r.Some? && OmitsPort(PortOrKnownDefault(base)) ==> r.value == base.host.value
    ensures r.Some? && !OmitsPort(PortOrKnownDefault(base)) ==>
      var h, v := base.host.value, r.value;
      && |v| > |h| + 1 && v[..|h|] == h && v[|h|] == ':'
      && AllDigits(v[|h| + 1..]) && ParseDecimal(v[|h| + 1..]) == PortOrKnownDefault(base).value
      && v[|h| + 1..] == NatToString(PortOrKnownDefault(base).value)
  {
    match base.host
    case None => None
    case Some(h) =>
      var port := PortOrKnownDefault(base);
      if OmitsPort(port) then Some(h)
      else
        var digits := NatToString(port.value);
        var v := h + ":" + digits;
        assert v[|h| + 1..] == digits;
        ParseNatToString(port.value);
        Some(v)
  }

  /** The test is on the port alone: `http://h:443` gives plain `h`. */
  lemma HostOmitsHttpsPortOnHttp(base: Url)
    requires base.scheme == "http" && base.host == Some("h") && base.port == Some(443)
    ensures HostHeaderValue(base) == Some("h")
  {
  }

  /** `X-Forwarded-For` (the client's address, or `unknown`), `X-Forwarded-Proto` and `X-Forwarded-Host`. */
  function ForwardedHeaders(conn: ConnectionInfo): HeaderList {
    [Header(ForwardedFor, conn.realIp.GetOr("unknown")), Header(ForwardedProto, conn.scheme), Header(ForwardedHost, conn.host)]
  }

  /** The values the proxy itself adds under `n`. */
  lemma ForwardedValues(conn: ConnectionInfo, n: string)
    ensures ValuesOf(ForwardedHeaders(conn), n) ==
      (if n == ForwardedFor then [conn.realIp.GetOr("unknown")] else [])
      + (if n == ForwardedProto then [conn.scheme] else [])
      + (if n == ForwardedHost then [conn.host] else [])
  {
    var a, b, c := Header(ForwardedFor, conn.realIp.GetOr("unknown")), Header(ForwardedProto, conn.scheme), Header(ForwardedHost, conn.host);
    assert ForwardedHeaders(conn) == [a] + [b] + [c];
    ValuesOfConcat([a] + [b], [c], n);
    ValuesOfConcat([a], [b], n);
    assert [a][..0] == [] && [b][..0] == [] && [c][..0] == [];
  }

  /** The `Host` header the proxy sets, when the base URL has a host. */
  function HostPart(base: Url): HeaderList {
    match HostHeaderValue(base)
    case Some(v) => [Header(HostHeader, v)]
    case None => []
  }

  lemma HostPartValues(base: Url, n: string)
    ensures ValuesOf(HostPart(base), n) ==
      if n == HostHeader && HostHeaderValue(base).Some? then [HostHeaderValue(base).value] else []
  {
    var hs := HostPart(base);
    if hs != [] {
      assert hs[..0] == [];
    }
  }

  /** The headers of the upstream request: the filtered client headers, then `Host`, then `X-Forwarded-*`. */
  function OutboundHeaders(client: HeaderList, base: Url, conn: ConnectionInfo): HeaderList {
    Without(client, RequestSkipped) + HostPart(base) + ForwardedHeaders(conn)
  }

  /** Under each name, the client's surviving values come first, then `Host`, then the forwarded ones. */
  lemma OutboundValues(client: HeaderList, base: Url, conn: ConnectionInfo, n: string)
    ensures ValuesOf(OutboundHeaders(client, base, conn), n) ==
      (if n in RequestSkipped then [] else ValuesOf(client, n)) + ValuesOf(HostPart(base), n) + ValuesOf(ForwardedHeaders(conn), n)
  {
    var kept, hostPart, fwd := Without(client, RequestSkipped), HostPart(base), ForwardedHeaders(conn);
    ValuesOfConcat(kept + hostPart, fwd, n);
    ValuesOfConcat(kept, hostPart, n);
    WithoutValues(client, RequestSkipped, n);
  }

  /** Upstream, `Host` carries exactly the value derived from the base URL; the client's is gone. */
  lemma OutboundHost(client: HeaderList, base: Url, conn: ConnectionInfo)
    ensures ValuesOf(OutboundHeaders(client, base, conn), HostHeader) ==
      match HostHeaderValue(base) case Some(v) => [v] case None => []
  {
    OutboundValues(client, base, conn, HostHeader);
    HostPartValues(base, HostHeader);
    ForwardedValues(conn, HostHeader);
  }

  /** A client-supplied `X-Forwarded-For` is not removed: the proxy's value is appended after it. */
  lemma OutboundForwardedFor(client: HeaderList, base: Url, conn: ConnectionInfo)
    ensures ValuesOf(OutboundHeaders(client, base, conn), ForwardedFor) ==
      ValuesOf(client, ForwardedFor) + [conn.realIp.GetOr("unknown")]
  {
    OutboundValues(client, base, conn, ForwardedFor);
    HostPartValues(base, ForwardedFor);
    ForwardedValues(conn, ForwardedFor);
  }

  /** Every header name other than the skipped ones and the added ones passes through untouched. */
  lemma OutboundOtherNames(client: HeaderList, base: Url, conn: ConnectionInfo, n: string)
    requires n !in RequestSkipped && n != ForwardedFor && n != ForwardedProto && n != ForwardedHost
    ensures ValuesOf(OutboundHeaders(client, base, conn), n) == ValuesOf(client, n)
  {
    OutboundValues(client, base, conn, n);
    HostPartValues(base, n);
    ForwardedValues(conn, n);
  }

  /** The target is the base URL's text with the path-and-query appended as text (`""` without one). */
  function TargetText(base: Url, uri: Uri): string {
    Serialize(base) + uri.pathAndQuery.GetOr("")
  }

  /** Concatenation, not resolution: the base path `/v1` stays in front of `/users`. */
  lemma TargetKeepsBasePath(base: Url, uri: Uri)
    requires base == Url("https", Some("api.example.com"), None, "/v1", None)
    requires uri.pathAndQuery == Some("/users?id=5")
    ensures TargetText(base, uri) == "https://api.example.com/v1/users?id=5"
  {
  }

  /** The three kinds of transport failure, checked in this order: connect, timeout, anything else. */
  datatype FailureKind = ConnectFailure | TimeoutFailure | OtherFailure

  function KindOf(e: HyperError): FailureKind {
    if e.isConnect then ConnectFailure else if e.isTimeout then TimeoutFailure else OtherFailure
  }

  /** The opening words of the 502 body for each kind; the base URL follows `" at "`. */
  function KindWording(k: FailureKind): string {
    match k
    case ConnectFailure => "Failed to connect to upstream server"
    case TimeoutFailure => "Request to upstream server"
    case OtherFailure => "Error communicating with upstream server"
  }

  function KindPrefix(k: FailureKind): string {
    KindWording(k) + " at "
  }

  /** The 502 body: the kind's wording, the upstream base URL, then the error's own text. */
  function UpstreamErrorMessage(base: Url, e: HyperError): (m: string)
    ensures var p := KindPrefix(KindOf(e));
      StartsWith(m, p) && |m| >= |p| + |Serialize(base)| && m[|p|..|p| + |Serialize(base)|] == Serialize(base)
    ensures |m| >= |e.text| + 2 && m[|m| - |e.text| - 2..] == ": " + e.text
    ensures var from, to := |KindPrefix(KindOf(e))| + |Serialize(base)|, |m| - |e.text| - 2;
      from <= to && m[from..to] == (if KindOf(e) == TimeoutFailure then " timed out" else "")
  {
    var p, b := KindPrefix(KindOf(e)), Serialize(base);
    var suffix := if KindOf(e) == TimeoutFailure then " timed out" else "";
    var m := p + b + suffix + (": " + e.text);
    assert m[..|p|] == p;
    assert m[|p|..|p| + |b|] == b;
    assert m[|m| - |e.text| - 2..] == ": " + e.text;
    assert m[|p| + |b|..|m| - |e.text| - 2] == suffix;
    m
  }

  lemma KindPrefixesDiffer(k1: FailureKind, k2: FailureKind)
    requires k1 != k2
    ensures |KindPrefix(k1)| > 0 && |KindPrefix(k2)| > 0 && KindPrefix(k1)[0] != KindPrefix(k2)[0]
  {
    var c1, c2 := KindWording(k1), KindWording(k2);
    match k1 {
      case ConnectFailure => assert c1[0] == 'F';
      case TimeoutFailure => assert c1[0] == 'R';
      case OtherFailure => assert c1[0] == 'E';
    }
    match k2 {
      case ConnectFailure => assert c2[0] == 'F';
      case TimeoutFailure => assert c2[0] == 'R';
      case OtherFailure => assert c2[0] == 'E';
    }
    assert KindPrefix(k1)[0] == c1[0] && KindPrefix(k2)[0] == c2[0];
  }

  /** Failures of different kinds always read differently, whatever their texts. */
  lemma UpstreamErrorKindsDistinct(base: Url, e1: HyperError, e2: HyperError)
    requires KindOf(e1) != KindOf(e2)
    ensures UpstreamErrorMessage(base, e1) != UpstreamErrorMessage(base, e2)
  {
    var m1, m2 := UpstreamErrorMessage(base, e1), UpstreamErrorMessage(base, e2);
    var p1, p2 := KindPrefix(KindOf(e1)), KindPrefix(KindOf(e2));
    assert m1[..|p1|] == p1 && m2[..|p2|] == p2;
    assert m1[0] == m1[..|p1|][0] == p1[0];
    assert m2[0] == m2[..|p2|][0] == p2[0];
    KindPrefixesDiffer(KindOf(e1), KindOf(e2));
  }

  /** hyper's `HeaderValue` accepts a string when every character is a tab or at least a space and not DEL. */
  predicate ValidHeaderValue(s: string) {
    forall i :: 0 <= i < |s| ==> s[i] == '\t' || (' ' <= s[i] && s[i] != '\U{7f}')
  }

  /**
   * The request builder fails, when `.body(..)` is called, exactly when one of the values
   * given to it as a string is not a valid header value (the copied client headers already are).
   */
  predicate BuilderAccepts(base: Url, conn: ConnectionInfo) {
    && (HostHeaderValue(base).Some? ==> ValidHeaderValue(HostHeaderValue(base).value))
    && ValidHeaderValue(conn.realIp.GetOr("unknown"))
    && ValidHeaderValue(conn.scheme)
    && ValidHeaderValue(conn.host)
  }

  const ReadBodyFailed := "Failed to read request body."
  const BuildFailed := "Failed to construct request for upstream server."

  /** The builder calls of the handler, in order: copied client headers, `Host`, `X-Forwarded-*`. */
  method BuildOutboundHeaders(client: HeaderList, base: Url, conn: ConnectionInfo) returns (headers: HeaderList)
    ensures headers == OutboundHeaders(client, base, conn)
  {
    headers := CopyRequestHeaders(client);
    var hostValue := HostHeaderValue(base);
    if hostValue.Some? {
      headers := headers + [Header(HostHeader, hostValue.value)];
    }
    headers := headers + [Header(ForwardedFor, conn.realIp.GetOr("unknown"))];
    headers := headers + [Header(ForwardedProto, conn.scheme)];
    headers := headers + [Header(ForwardedHost, conn.host)];
  }

  /** What the client sees once the upstream request has been sent. */
  function Relayed(base: Url, outcome: SendOutcome): Response {
    match outcome
    case Received(status, hs, Success(body)) => Response(status, Grouped(Without(hs, HopByHop)), Bytes(body))
    case Received(_, _, Failure(e)) => TextResponse(InternalServerError, "Failed to read upstream response: " + e.text)
    case TransportFailed(e) => TextResponse(BadGateway, UpstreamErrorMessage(base, e))
  }

  /** The upstream status is relayed unchanged, and no hop-by-hop header reaches the client. */
  lemma RelayedSuccess(base: Url, outcome: SendOutcome)
    requires outcome.Received? && outcome.body.Success?
    ensures var r := Relayed(base, outcome);
      && r.status == outcome.status && r.body == Bytes(outcome.body.value)
      && (forall n :: n in r.headers <==> n !in HopByHop && ValuesOf(outcome.headers, n) != [])
      && (forall n :: n in r.headers ==> r.headers[n] == ValuesOf(outcome.headers, n))
  {
    forall n ensures var r := Relayed(base, outcome);
      (n in r.headers <==> n !in HopByHop && ValuesOf(outcome.headers, n) != [])
      && (n in r.headers ==> r.headers[n] == ValuesOf(outcome.headers, n))
    {
      GroupedValues(Without(outcome.headers, HopByHop), n);
      WithoutValues(outcome.headers, HopByHop, n);
    }
  }

  /** Sending the request and turning the outcome into the client's response. */
  method Relay(base: Url, outbound: Request, client: Client) returns (resp: Response)
    ensures resp == Relayed(base, client(outbound))
  {
    match client(outbound)
    case Received(status, hs, body) =>
      var relayed := CopyResponseHeaders(hs);
      match body {
        case Success(bytes) =>
          resp := Response(status, relayed, Bytes(bytes));
        case Failure(e) =>
          resp := TextResponse(InternalServerError, "Failed to read upstream response: " + e.text);
      }
    case TransportFailed(e) =>
      resp := TextResponse(BadGateway, UpstreamErrorMessage(base, e));
  }

  /**
   * `forward_to_upstream`. `bodyReadError` is the outcome of extracting the request body
   * from an empty payload (`Payload::None`): on success the upstream body is empty, whatever
   * the client sent.
   */
  method ForwardToUpstream(req: Request, conn: ConnectionInfo, state: ProxyState, parseUri: UriParser,
                           bodyReadError: Option<string>, client: Client)
    returns (resp: Response, sent: Option<Request>)
    ensures var parsed := parseUri(TargetText(state.upstreamBaseUrl, req.uri));
      parsed.Failure? ==>
        resp == TextResponse(InternalServerError, "Invalid upstream URL configuration: " + parsed.error) && sent == None
    ensures var parsed := parseUri(TargetText(state.upstreamBaseUrl, req.uri));
      parsed.Success? && bodyReadError.Some? ==> resp == TextResponse(InternalServerError, ReadBodyFailed) && sent == None
    ensures var parsed := parseUri(TargetText(state.upstreamBaseUrl, req.uri));
      parsed.Success? && bodyReadError.None? && !BuilderAccepts(state.upstreamBaseUrl, conn) ==>
        resp == TextResponse(InternalServerError, BuildFailed) && sent == None
    ensures var parsed := parseUri(TargetText(state.upstreamBaseUrl, req.uri));
      parsed.Success? && bodyReadError.None? && BuilderAccepts(state.upstreamBaseUrl, conn) ==>
        && sent == Some(Request(req.verb, parsed.value, Http11, OutboundHeaders(req.headers, state.upstreamBaseUrl, conn), []))
        && resp == Relayed(state.upstreamBaseUrl, client(sent.value))
  {
    var base := state.upstreamBaseUrl;
    var parsed := parseUri(TargetText(base, req.uri));
    if parsed.Failure? {
      return TextResponse(InternalServerError, "Invalid upstream URL configuration: " + parsed.error), None;
    }
    var headers := BuildOutboundHeaders(req.headers, base, conn);
    if bodyReadError.Some? {
      return TextResponse(InternalServerError, ReadBodyFailed), None;
    }
    if !BuilderAccepts(base, conn) {
      return TextResponse(InternalServerError, BuildFailed), None;
    }
    var outbound := Request(req.verb, parsed.value, Http11, headers, []);
    sent := Some(outbound);
    resp := Relay(base, outbound, client);
  }
}
