# shadowstep, modelled in Dafny

shadowstep is a small edge CDN written in Rust. The repository holds two variants that have
drifted apart, and this model keeps them apart.

- **The asset server** is what `main` builds. `GET /assets/{filename}` is answered from an
  in-memory map of filename to (content, ETag). The map is filled on demand from the asset
  directory. The server keeps hit, miss and item counters and answers `If-None-Match`
  revalidation with 304 (module `Assets`).
- **The proxy variant** forwards every request. A GET is first looked up in a bounded
  cache whose entries expire a fixed time after insertion. Otherwise the request goes to
  the origin: the request's path-and-query is resolved against the origin base URL, the
  client's `Host` is removed, and the answer is cached when it is a non-empty 2xx response
  to a GET. The response is tagged `x-shadowstep-cache: HIT` or `MISS` (modules `Server`,
  `Fetcher`, `Cache`).
- **`forward_to_upstream`** is a second reverse-proxy handler. It filters hop-by-hop
  headers in both directions, sets `Host` and `X-Forwarded-*`, and maps transport failures
  to 502 messages (module `Proxy`). It reads an upstream base URL and an HTTP client from a
  state that no `AppState` in the repository declares, so the model gives it a state of its
  own.

Supporting modules:
- `Config`: settings and defaults.
- `Util`: `ShadowError` and its messages.
- `Urls`: URL values, serialisation and reference resolution, as `Url::join` does it for the
  references the model covers. Its merge and dot-segment steps are those of RFC 3986,
  sections 5.2.3 and 5.2.4.
- `Headers`: header lists and actix header maps.
- `Http`: requests, responses, status codes and versions.
- `Text`: decimal and hex text.
- `Wrappers`: `Option` and `Result`.

Header names are held in lower case, as the http crate's `HeaderName` normalises them.
There are two header shapes:
- A hyper header map, or the request headers an actix handler sees, is a *list* with
  repeated names kept. Builder `.header(..)` appends to it. Only the order of the values
  under one name is meaningful. The http crate's map iterates all values of a name
  together, and its `remove` moves entries around. So a list's order across names is not
  the order on the wire, and no contract here is read as one about it.
- An actix response header map is a map from name to its list of values. `append_header`
  extends a name's list and `insert_header` replaces it.

What the model takes as parameters, because it cannot see or model that code:
- URL parsing (`url::Url::parse`) and URI parsing (`http::Uri`), as functions returning
  a value or an error text.
- The hyper client, as a function from request to outcome. The outcome is a transport
  failure, or a status with headers and a body that was read or failed to read.
- SHA-256 and `mime_guess`, as functions.
- The filesystem, as a map from path to bytes.
- The cache clock, as a natural number of nanoseconds. The handler reads it twice: when the
  request arrives (the lookup) and once the origin has answered (the insertion).
- A failure to read the proxy's request body, as an optional error.
- What actix's connection info reports (real IP, scheme, host), as a value.

Where the code and its documentation disagree, the model follows the code:
- `forward_to_upstream` builds its target by concatenating the base URL's text with the
  path-and-query (`src/proxy.rs:37-38`); it does not resolve one against the other. A base
  `https://api.example.com/v1` and `/users?id=5` give `https://api.example.com/v1/users?id=5`
  (`Proxy.TargetKeepsBasePath`). The fetcher does resolve, and gives
  `https://api.example.com/users?id=5` (`Urls.JoinReplacesBasePath`).
- `forward_to_upstream` reads its body from an empty payload, not the client's
  (`src/proxy.rs:101`). The upstream request body is therefore always empty.
- An entry expires once its age reaches the time-to-live, not only once it exceeds it.
  moka expires entries at age >= ttl. `Cache.Fresh` is `now < insertedAt + ttl`.
- The `Err` arm after `hyper_to_actix_response` (`src/server.rs:138-145`) cannot be reached,
  because that conversion always returns `Ok`. `Server.HyperToActixResponse` returns a
  response, not a result.
- The asset server joins the file name onto the fixed directory `/app/assets`
  (`src/main.rs:109`); it ignores the configured `asset_path`. `Path::join` replaces the
  directory when the name is absolute, so `/assets//etc/passwd` reads `/etc/passwd`
  (`Assets.AbsoluteNameEscapes`).

Two methods model nothing in the source and have no row. They exercise the contracts:
they call the operations in sequence and show that the promised results follow from the
contracts alone.
- `Cache.Session` runs inserts, lookups at and past the time-to-live, an invalidation and a clear.
- `Assets.Revalidate` makes a first request that fills the cache, then a repeat with the
  returned ETag that gets a 304.

## Model

| member | source | states |
|---|---|---|
| `Headers.WithoutMember` | src/proxy.rs:61-76 | a header survives the name filter exactly when it was in the list and its name is not one of the dropped names |
| `Headers.WithoutValues` | src/fetcher.rs:55 | after dropping a set of names, a dropped name has no values and every other name keeps all its values in their order |
| `Headers.GroupedValues` | src/proxy.rs:138 | appending every header into an actix map gives a name exactly when the list has it, with all its values in order |
| `Headers.KeyedValues` | src/server.rs:68 | inserting every header into an actix map gives a name exactly when the list has it, holding only its last value |
| `Util.Message` | src/util.rs:5-39 | an error's message is its variant's fixed prefix followed by the inner error's text |
| `Util.MessageInjective` | src/util.rs:5-39 | two errors with the same message are the same error: no variant's prefix starts another's, so the variant and the inner text are both recoverable |
| `Urls.Merge` | src/fetcher.rs:46-48 | merging a relative path keeps the base path up to and including its last `/` and appends the reference; a base with no `/` gives `/` and the reference |
| `Urls.MergeExamples` | src/fetcher.rs:46-48 | `/v1/` merged with `users` is `/v1/users`; `/v1` merged with `users` is `/users` |
| `Urls.JoinRelativePath` | src/fetcher.rs:46-48 | resolving a relative-path reference keeps the base's scheme, host and port, takes the merged path with dot segments removed, and the reference's query |
| `Urls.JoinAsterisk` | src/fetcher.rs:39-48 | `https://h/v1` joined with the path `*` is `https://h/*` |
| `Urls.RemoveDots` | src/fetcher.rs:46-48 | removing dot segments from an absolute path leaves a path starting with `/` containing no `.` or `..` segment |
| `Urls.DotDotRemovesPrevious` | src/fetcher.rs:46-48 | anywhere in a path, a segment followed by `..` (and more segments) resolves as if neither were there: `..` removes exactly the segment before it |
| `Urls.DotDropped` | src/fetcher.rs:46-48 | anywhere in a path, a `.` segment followed by more segments is dropped and nothing else changes |
| `Urls.DotDotAtRoot` | src/fetcher.rs:46-48 | a leading `..` cannot climb above the root and is dropped |
| `Urls.RootParent` | src/fetcher.rs:46-48 | `/..` resolves to `/` |
| `Urls.DotDotExample` | src/fetcher.rs:46-48 | `/a/b/../c` resolves to `/a/c` |
| `Urls.TrailingDotDot` | src/fetcher.rs:46-48 | a final `..` removes the segment before it and leaves the path ending in `/`, as if the pair were one empty last segment |
| `Urls.TrailingDot` | src/fetcher.rs:46-48 | a final `.` is dropped and leaves the path ending in `/` |
| `Urls.TrailingDotDotExample` | src/fetcher.rs:46-48 | `/a/b/..` resolves to `/a/` |
| `Urls.RemoveDotsIdempotent` | src/fetcher.rs:46-48 | removing dot segments a second time changes nothing |
| `Urls.RemoveDotsIdentity` | src/fetcher.rs:46-48 | a path with no dot segments is left as it is |
| `Urls.JoinPathAbsolute` | src/fetcher.rs:46-48 | resolving a path-absolute reference keeps the base's scheme, host and port, replaces the whole path by the reference's path with dot segments removed, and takes the query from the reference |
| `Urls.JoinReplacesBasePath` | src/fetcher.rs:46-48 | `https://api.example.com/v1` joined with `/users?id=5` has path `/users` and query `id=5` |
| `Config.Load` | src/config.rs:6-38 | loading succeeds exactly when an origin URL is given; each other setting is exactly the given value when one is given and its default otherwise (`0.0.0.0:8080`, `/app/assets`, 300 s, 100 MB), and the TLS paths stay as given |
| `Config.TlsEnabledAgreesWithPaths` | src/config.rs:40-42 | TLS is enabled exactly when both the certificate and the key path are present, the same test the asset server's start-up applies |
| `Config.DefaultsOnlyOrigin` | src/config.rs:8-24 | with only an origin URL given, every default applies and TLS is off |
| `Cache.MaxCapacity` | src/cache.rs:25 | the capacity computed with a wrapping 64-bit product is bounded by (2^64 - 1) / 10240 |
| `Cache.MaxCapacityExact` | src/cache.rs:25 | below 2^44 MB the capacity is exactly floor(size_mb * 1024 / 10) |
| `Cache.MaxCapacityWraps` | src/cache.rs:25 | at 2^44 MB the product wraps to 0 and the capacity is 0 |
| `Cache.MaxCapacityExamples` | src/cache.rs:25 | 100 MB gives 10240 entries and 0 MB gives 0 |
| `Cache.LookupAfterPut` | src/cache.rs:37-56 | a lookup after an insertion returns exactly the inserted status, headers and body while the time-to-live has not elapsed, and nothing afterwards |
| `Cache.LookupPutOther` | src/cache.rs:42-56 | inserting under one key leaves every other key's lookup unchanged |
| `Cache.ExpiredNeverReturned` | src/cache.rs:28-31 | an entry whose age has reached the time-to-live is never returned |
| `Cache.LookupRetained` | src/cache.rs:29 | eviction never changes an entry it keeps: a lookup that still answers answers as before eviction |
| `Cache.HitPersistsBackwards` | src/cache.rs:28-31 | an entry served at some time was served with the same response at every earlier time since its insertion |
| `Cache.CdnCache.constructor` | src/cache.rs:22-34 | a new cache is empty, with the computed capacity and the time-to-live in nanoseconds; it exists only for a time-to-live of at most 1000 years, the most moka's builder accepts |
| `Cache.CdnCache.Get` | src/cache.rs:37-39 | the answer is present exactly when the key's entry is fresh, and is then that entry's response |
| `Cache.CdnCache.Insert` | src/cache.rs:42-56 | any response is accepted and replaces the key's entry wholesale; the new store only drops entries of the updated one, equals it when it fits, and never exceeds the capacity |
| `Cache.CdnCache.Len` | src/cache.rs:59-61 | the count is the number of entries held |
| `Cache.CdnCache.Invalidate` | src/cache.rs:64-66 | the key's entry is gone and every other entry stays |
| `Cache.CdnCache.Clear` | src/cache.rs:69-71 | no entry is left |
| `Fetcher.New` | src/fetcher.rs:16-32 | construction succeeds exactly when the origin URL parses, keeps the parsed URL, and otherwise fails with a `UrlParse` error |
| `Fetcher.FetchFromOrigin` | src/fetcher.rs:34-65 | a request is sent exactly when the target resolves and parses; it carries the target URI with method, version, body and every header but `Host` unchanged; success returns the origin's status, headers and full body, and any hyper failure, in sending or in reading the body, becomes a `Hyper` error carrying that failure's text |
| `Fetcher.NoPathResolvesToRoot` | src/fetcher.rs:39-48 | a request without path-and-query targets the base URL with path `/` and no query |
| `Fetcher.PathAbsoluteTarget` | src/fetcher.rs:39-51 | a path-absolute path-and-query targets the base's scheme, host and port with the request's path, dot segments removed, and the request's query |
| `Proxy.CopyRequestHeaders` | src/proxy.rs:61-76 | the outbound headers are the client's minus exactly the seven hop-by-hop names and `Host`, every other header unchanged |
| `Proxy.CopyResponseHeaders` | src/proxy.rs:127-141 | the relayed headers hold every name except the seven hop-by-hop ones (`Host` included), each with all its values in order |
| `Proxy.HostHeaderValue` | src/proxy.rs:79-92 | no value without a host; the bare host when the effective port is absent, 80 or 443; otherwise the host, `:` and the port's canonical decimal text (no leading zeros), which parses back to the port |
| `Proxy.HostOmitsHttpsPortOnHttp` | src/proxy.rs:80-89 | the port test ignores the scheme: `http://h:443` gives `h` |
| `Proxy.ForwardedValues` | src/proxy.rs:95-97 | the proxy adds one `X-Forwarded-For` (real IP or `unknown`), one `X-Forwarded-Proto` (scheme) and one `X-Forwarded-Host` (host) |
| `Proxy.OutboundValues` | src/proxy.rs:61-97 | under every name the upstream sees the client's values (none for a skipped name), then the proxy's `Host`, then the forwarded headers |
| `Proxy.OutboundHost` | src/proxy.rs:71-92 | upstream, `Host` carries only the value derived from the base URL, or nothing when the base has no host |
| `Proxy.OutboundForwardedFor` | src/proxy.rs:24-28 | a client-supplied `X-Forwarded-For` is kept and the proxy's value comes after it |
| `Proxy.OutboundOtherNames` | src/proxy.rs:61-97 | every other header name reaches the upstream with exactly the client's values |
| `Proxy.TargetKeepsBasePath` | src/proxy.rs:37-38 | the target is the base URL's text followed by the path-and-query, the base path included |
| `Proxy.UpstreamErrorMessage` | src/proxy.rs:154-172 | the 502 text opens with the wording of its failure kind, continues with the base URL, then ` timed out` exactly for a timeout and nothing otherwise, and ends with `: ` and the error's text |
| `Proxy.KindPrefixesDiffer` | src/proxy.rs:154-172 | the three wordings start with different characters |
| `Proxy.UpstreamErrorKindsDistinct` | src/proxy.rs:154-172 | failures of different kinds never produce the same message |
| `Proxy.BuildOutboundHeaders` | src/proxy.rs:55-97 | the builder receives the filtered client headers, then `Host`, then the three forwarded headers |
| `Proxy.RelayedSuccess` | src/proxy.rs:124-150 | a relayed response has the upstream status and body, and its header names are exactly the upstream's non-hop-by-hop names with all their values |
| `Proxy.Relay` | src/proxy.rs:118-174 | the client's answer is the relayed response, a 500 when the upstream body cannot be read, or a 502 with the kind's message on a transport failure |
| `Proxy.ForwardToUpstream` | src/proxy.rs:19-176 | a bad target gives 500 `Invalid upstream URL configuration: …`, a body failure or builder failure a fixed 500, and in each case nothing is sent; otherwise exactly one request goes upstream (method, parsed target, HTTP/1.1, the outbound headers, an empty body) and its outcome is relayed |
| `Server.ToHyperVersion` | src/server.rs:39-49 | 0.9, 1.0, 1.1, 2 and 3 map to themselves and any other version to 1.1 |
| `Server.ActixToHyperRequest` | src/server.rs:32-60 | the conversion fails exactly when the URI text does not parse, with an `Http` error; otherwise it keeps method, the headers as the request yields them and body, and maps the version |
| `Server.CopyHeadersReplacing` | src/server.rs:64-69 | copying by insertion keeps every name of the list with its last value only |
| `Server.HyperToActixResponse` | src/server.rs:62-71 | the actix response has the origin status and body and the headers copied by insertion |
| `Server.MarkedHeaders` | src/server.rs:90-95 | a tagged response has the cache header set to the tag alone and every other name with only its last value |
| `Server.ForwardRequest` | src/server.rs:73-173 | only a GET consults the cache, keyed by the full URI text; a hit answers the cached response tagged `HIT` without contacting the origin; a conversion failure gives a 500 and an origin failure a 502, neither touching the cache; a success answers the origin response tagged `MISS` and is stored under the same key, stamped with the instant the origin answered, exactly when the request is a GET, the status is 2xx and the body is non-empty |
| `Server.ReplayMatchesOrigin` | src/server.rs:83-150 | while a stored miss is fresh, the next GET for its key is a hit whose answer is the origin's response with `MISS` replaced by `HIT` |
| `Assets.ETagShape` | src/main.rs:114-116 | an ETag is 34 characters, quoted at both ends, and its inside is the hex encoding of the digest's first 16 bytes |
| `Assets.ETagCollidesOnPrefix` | src/main.rs:116 | two digests give the same ETag exactly when their first 16 bytes agree |
| `Assets.ETagToStrOk` | src/main.rs:86-88 | an ETag is always readable as header text, so a client value equal to it is always compared |
| `Assets.AssetPath` | src/main.rs:109 | an absolute file name is read as it is; any other is read under `/app/assets/` |
| `Assets.AbsoluteNameEscapes` | src/main.rs:109 | the file name `/etc/passwd` reads `/etc/passwd`, outside the asset directory |
| `Assets.AssetServer.constructor` | src/main.rs:178-185 | the server starts with an empty map and all counters at zero |
| `Assets.AssetServer.ServeCached` | src/main.rs:84-106 | a cached file is answered 304 when the first `If-None-Match` equals its ETag, otherwise 200 with its content, ETag, cache policy and content type; either way `hits` goes up by one and nothing else changes |
| `Assets.AssetServer.ServeFromDisk` | src/main.rs:108-139 | an uncached readable file is stored with the ETag of its hash and answered 200, `misses` goes up by one and `items` becomes the map's size; an unreadable one is answered 404 `not found` with nothing changed |
| `Assets.AssetServer.ServeAsset` | src/main.rs:68-140 | the handler keeps its invariant (`items` and `misses` equal the map's size, `hits + misses` counts the answered requests, every ETag matches its content) and the map only grows, no entry ever being replaced |
| `Assets.AssetServer.Stats` | src/main.rs:142-157 | the reported counters are the current ones: `items` is the number of cached files and `hits + misses` the number of answered requests |

## Left out

- TLS loading (`src/tls.rs`, `src/main.rs:41-66`): certificate and key file reading, PEM parsing and rustls configuration are library calls the model cannot see.
- Start-up and binding (`run`, `main`): worker counts, keep-alive, the 8443 bind, graceful shutdown, the middleware stack (logger, compression) and the headers actix adds by itself (`content-length`, `date`, and `content-type: text/plain; charset=utf-8` on the 500 that `ErrorInternalServerError` builds when the upstream body cannot be read at `src/proxy.rs:147`).
- Logging and timing (`info!`, `debug!`, `Instant`, `setup_logger`).
- Body streaming: bodies are whole byte sequences. The actix payload stream and hyper's streaming body are not modelled.
- moka's internals: asynchrony, concurrent access, the eventual consistency of `entry_count`, and which entries eviction picks. The model is sequential and evicts arbitrary entries.
- Cache.CdnCache.constructor: moka's builder panics on a time-to-live over 1000 years (31 536 000 000 s), and `Config.Load` does not bound `--cache-ttl-seconds`, so such a value crashes start-up (`src/server.rs:179-182`). The model states this as a precondition of the constructor rather than modelling the crash.
- Cache.CdnCache.Insert: beyond the capacity bound, which entries survive an overflow is left open, because moka does not specify its eviction order.
- Cache.CdnCache.Len: states the exact entry count, while moka's `entry_count` may lag behind recent writes.
- Concurrency in the asset server: its read lock, write lock and counter lock are taken in sequence. Two simultaneous misses on one file would count two misses for one entry; the model serves one request at a time.
- `health_check`'s JSON rendering and its floating-point `hit_ratio`: `Assets.AssetServer.Stats` returns the integer counters only.
- The asset counters are unbounded naturals; `usize` overflow is not modelled.
- URL parsing and validation are the parser parameter. `Urls.Serialize` writes scheme, host, port, path and query only: no user info, fragment, percent-encoding, IPv6 brackets or default-port elision.
- Urls.Join: follows RFC 3986 for the references it covers, while the url crate follows the WHATWG URL standard; the crate's percent-encoding of characters such as `"`, `{` and `}` in the resolved path is not modelled.
- Urls.RemoveDots: removes only the literal segments `.` and `..`; the WHATWG URL standard also treats `%2e`, `.%2e`, `%2e.` and `%2e%2e` (any case) as dot segments, and the model leaves them in the path.
- Header order across names: a header list is compared by the values under each name only; the http crate's grouping of a name's values and the reordering its `remove` causes are not modelled.
- References handed back to the URL parser: those with a scheme and network-path references (`//…`). Backslash handling in special schemes is not modelled.
- URI parsing is the parser parameter; its error texts are opaque strings.
- SHA-256, hex encoding's library, and `mime_guess` are functions or definitions of the model, not the crates'. The hex encoding is written out and proved.
- The text of hyper and URL errors: they are opaque strings inside `ShadowError` and `HyperError`.
- `Config.Load`: clap's parsing of the numeric settings from text and its error output and exit are not modelled; the settings arrive already parsed.
- The file name is the decoded route segment; actix's percent-decoding of the path is not modelled.
- `fetch_from_origin` edits its owned request in place; the model edits it as a value, which loses nothing because the caller gives the request up.
