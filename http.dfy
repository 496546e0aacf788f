/**
 * The HTTP values the handlers exchange: methods, versions, URIs, requests, responses,
 * and the outcome of handing a request to hyper's client.
 */
module Http {

  import opened Wrappers
  import opened Text
  import opened Headers

  datatype Method = GET | HEAD | POST | PUT | DELETE | CONNECT | OPTIONS | TRACE | PATCH
                  | Extension(token: string)

  /** The versions the http crate names, and any other value its `Version` could carry. */
  datatype Version = Http09 | Http10 | Http11 | Http2 | Http3 | OtherVersion(tag: nat)

  predicate IsNamedVersion(v: Version) {
    !v.OtherVersion?
  }

  /** An http `StatusCode`: a three-digit number. */
  type StatusCode = s: int | 100 <= s <= 999 witness 200

  /** `StatusCode::is_success`: the 2xx class. */
  predicate IsSuccess(s: StatusCode) {
    200 <= s <= 299
  }

  const Ok: StatusCode := 200
  const NotModified: StatusCode := 304
  const NotFound: StatusCode := 404
  const InternalServerError: StatusCode := 500
  const BadGateway: StatusCode := 502

  /**
   * A URI, by its printed form (`uri.to_string()`) and its path-and-query component.
   * The http crate's URI grammar is not part of this model: parsing is a parameter.
   */
  datatype Uri = Uri(text: string, pathAndQuery: Option<string>)

  /** `Uri::try_from` / `str::parse::<Uri>`: the URI, or the text of the `InvalidUri` error. */
  type UriParser = string -> Result<Uri, string>

  datatype Request = Request(verb: Method, uri: Uri, version: Version, headers: HeaderList, body: Bytes)

  /** An actix response body: a byte buffer, a text, or none at all (`finish()`). */
  datatype Body = Bytes(bytes: Bytes) | Text(text: string) | Empty

  /** An actix `HttpResponse`. */
  datatype Response = Response(status: StatusCode, headers: HeaderMap, body: Body)

  /** An actix response with no headers and a text body, as `HttpResponse::…().body(msg)` builds. */
  function TextResponse(status: StatusCode, msg: string): Response {
    Response(status, map[], Text(msg))
  }

  /** A hyper response whose body has been read into memory (`Response<Bytes>`). */
  datatype OriginResponse = OriginResponse(status: StatusCode, headers: HeaderList, body: Bytes)

  /** A `hyper::Error` as the code inspects it: `is_connect()`, `is_timeout()` and its text. */
  datatype HyperError = HyperError(isConnect: bool, isTimeout: bool, text: string)

  /**
   * What hyper's client does with one request: either a response whose status and headers
   * arrived (reading its body may still fail), or a transport error.
   */
  datatype SendOutcome =
    | Received(status: StatusCode, headers: HeaderList, body: Result<Bytes, HyperError>)
    | TransportFailed(error: HyperError)

  /** The network and the origin behind hyper's client. */
  type Client = Request -> SendOutcome
}
