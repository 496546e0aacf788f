/**
 * The static-asset server, the binary `main` builds: `GET /assets/{filename}` is answered
 * from an in-memory map of filename to content and ETag, filled on demand from the asset
 * directory, with hit, miss and item counters and `If-None-Match` revalidation.
 *
 * SHA-256 and the MIME guess are functions given to the model; the filesystem is a map from
 * path to content, a path it does not hold being one that cannot be read.
 */
module Assets {

  import opened Wrappers
  import opened Text
  import opened Headers
  import opened Http

  type Digest = d: Bytes | |d| == 32 witness seq(32, _ => 0 as byte)

  type Sha256 = Bytes -> Digest

  /** A MIME guess from a file name; none when the extension is unknown. */
  type MimeGuess = string -> Option<string>

  type FileSystem = map<string, Bytes>

  /** A cached asset: the file's content and its ETag. */
  datatype Asset = Asset(content: Bytes, etag: string)

  const AssetDirectory := "/app/assets"
  const IfNoneMatch := "if-none-match"
  const ETagHeader := "etag"
  const CacheControl := "cache-control"
  const ContentType := "content-type"
  const CachePolicy := "public, max-age=86400"
  const OctetStream := "application/octet-stream"
  const NotFoundBody := "not found"

  /** The ETag: the digest's first 32 lower-case hex characters in double quotes. */
  function ETag(d: Digest): string {
    "\"" + HexEncode(d)[..32] + "\""
  }

  /** An ETag is 34 characters long, quoted, and encodes only the first half of the digest. */
  lemma ETagShape(d: Digest)
    ensures var e := ETag(d);
      && |e| == 34 && e[0] == '"' && e[33] == '"'
      && e[1..33] == HexEncode(d[..16])
  {
    HexEncodeTake(d, 16);
    var e := ETag(d);
    assert e[1..33] == HexEncode(d)[..32];
  }

  /** Two digests give the same ETag exactly when their first 16 bytes agree. */
  lemma ETagCollidesOnPrefix(d1: Digest, d2: Digest)
    ensures ETag(d1) == ETag(d2) <==> d1[..16] == d2[..16]
  {
    ETagShape(d1);
    ETagShape(d2);
    if ETag(d1) == ETag(d2) {
      assert HexEncode(d1[..16]) == HexEncode(d2[..16]);
      HexRoundTrip(d1[..16]);
      HexRoundTrip(d2[..16]);
    }
    if d1[..16] == d2[..16] {
      var e1, e2 := ETag(d1), ETag(d2);
      assert e1 == e1[..1] + e1[1..33] + e1[33..];
      assert e2 == e2[..1] + e2[1..33] + e2[33..];
      assert e1[33..] == e2[33..] == "\"";
    }
  }

  /** `HeaderValue::to_str` succeeds when every character is visible ASCII or a tab. */
  predicate ToStrOk(v: string) {
    forall i :: 0 <= i < |v| ==> v[i] == '\t' || (' ' <= v[i] && v[i] <= '~')
  }

  /** An ETag always passes `to_str`, so a client value equal to it is compared, never skipped. */
  lemma ETagToStrOk(d: Digest)
    ensures ToStrOk(ETag(d))
  {
    var e := ETag(d);
    ETagShape(d);
    forall i | 0 <= i < |e| ensures e[i] == '\t' || (' ' <= e[i] && e[i] <= '~') {
      if 1 <= i < 33 {
        assert e[i] == HexEncode(d[..16])[i - 1];
        assert IsLowerHex(e[i]);
      }
    }
  }

  /** The revalidation test: the first `If-None-Match` value, readable as text, equals the ETag. */
  predicate Revalidates(headers: HeaderList, etag: string) {
    var v := FirstValue(headers, IfNoneMatch);
    v.Some? && ToStrOk(v.value) && v.value == etag
  }

  /**
   * `Path::new("/app/assets").join(filename)`: an absolute file name replaces the directory
   * altogether; any other is appended after a separator.
   */
  function AssetPath(filename: string): (p: string)
    ensures StartsWith(filename, "/") ==> p == filename
    ensures !StartsWith(filename, "/") ==> p == AssetDirectory + "/" + filename
  {
    if |filename| > 0 && filename[0] == '/' then filename else AssetDirectory + "/" + filename
  }

  /** Nothing keeps a request inside the asset directory: `/assets//etc/passwd` reads `/etc/passwd`. */
  lemma AbsoluteNameEscapes(filename: string)
    requires filename == "/etc/passwd"
    ensures AssetPath(filename) == "/etc/passwd"
  {
  }

  /** The 200 answer: the content, its ETag, the cache policy and the guessed content type. */
  function AssetResponse(a: Asset, mime: Option<string>): Response {
    Response(Ok, map[ETagHeader := [a.etag], CacheControl := [CachePolicy], ContentType := [mime.GetOr(OctetStream)]], Bytes(a.content))
  }

  /** The 304 answer: no headers of its own and no body. */
  const NotModifiedResponse := Response(NotModified, map[], Empty)

  /** Each stored ETag is the one the stored content hashes to. */
  ghost predicate ETagsMatch(cache: map<string, Asset>, sha256: Sha256) {
    forall k :: k in cache ==> cache[k].etag == ETag(sha256(cache[k].content))
  }

  /** `AppState` with its `CacheStats`: the asset map and the three counters. */
  class AssetServer {
    const sha256: Sha256
    var cache: map<string, Asset>
    var hits: nat
    var misses: nat
    var items: nat
    /** The number of requests answered 200 or 304. */
    ghost var served: nat

    /**
     * `items` is the map's size; every miss added a new entry, so the misses are the entries;
     * every answered request counted once; each ETag is the one its content hashes to.
     */
    ghost predicate Valid()
      reads this
    {
      && items == |cache|
      && misses == |cache|
      && hits + misses == served
      && ETagsMatch(cache, sha256)
    }

    constructor (sha256: Sha256)
      ensures Valid()
      ensures this.sha256 == sha256 && cache == map[] && hits == 0 && misses == 0 && items == 0
    {
      this.sha256 := sha256;
      cache := map[];
      hits := 0;
      misses := 0;
      items := 0;
      served := 0;
    }

    /** The cached branch of `serve_asset`: a 304 or a 200, counted as a hit either way. */
    method ServeCached(filename: string, headers: HeaderList, mimeOf: MimeGuess) returns (resp: Response)
      requires Valid() && filename in cache
      modifies this
      ensures Valid()
      ensures cache == old(cache) && hits == old(hits) + 1 && misses == old(misses)
      ensures Revalidates(headers, cache[filename].etag) ==> resp == NotModifiedResponse
      ensures !Revalidates(headers, cache[filename].etag) ==> resp == AssetResponse(cache[filename], mimeOf(filename))
    {
      var a := cache[filename];
      var inm := FirstValue(headers, IfNoneMatch);
      hits := hits + 1;
      served := served + 1;
      if inm.Some? {
        if ToStrOk(inm.value) {
          if inm.value == a.etag {
            return NotModifiedResponse;
          }
        }
      }
      resp := AssetResponse(a, mimeOf(filename));
    }

    /** The uncached branch of `serve_asset`: read, hash, store and count a miss, or answer 404. */
    method ServeFromDisk(filename: string, fs: FileSystem, mimeOf: MimeGuess) returns (resp: Response)
      requires Valid() && filename !in cache
      modifies this
      ensures Valid()
      ensures AssetPath(filename) in fs ==>
        var a := Asset(fs[AssetPath(filename)], ETag(sha256(fs[AssetPath(filename)])));
        && resp == AssetResponse(a, mimeOf(filename))
        && cache == old(cache)[filename := a] && hits == old(hits) && misses == old(misses) + 1
      ensures AssetPath(filename) !in fs ==>
        && resp == TextResponse(NotFound, NotFoundBody)
        && cache == old(cache) && hits == old(hits) && misses == old(misses) && served == old(served)
    {
      var path := AssetPath(filename);
      if path in fs {
        var content := fs[path];
        var etag := ETag(sha256(content));
        cache := cache[filename := Asset(content, etag)];
        misses := misses + 1;
        items := |cache|;
        served := served + 1;
        resp := AssetResponse(Asset(content, etag), mimeOf(filename));
      } else {
        resp := TextResponse(NotFound, NotFoundBody);
      }
    }

    /**
     * `serve_asset`. `headers` are the request's headers, `fs` the files readable now and
     * `mimeOf` the MIME guess. The map only grows: no entry is ever replaced or removed.
     */
    method ServeAsset(filename: string, headers: HeaderList, fs: FileSystem, mimeOf: MimeGuess)
      returns (resp: Response)
      requires Valid()
      modifies this
      ensures Valid()
      ensures old(cache).Keys <= cache.Keys && forall k :: k in old(cache) ==> cache[k] == old(cache)[k]
      ensures filename in old(cache) && Revalidates(headers, old(cache)[filename].etag) ==>
        && resp == NotModifiedResponse
        && cache == old(cache) && hits == old(hits) + 1 && misses == old(misses)
      ensures filename in old(cache) && !Revalidates(headers, old(cache)[filename].etag) ==>
        && resp == AssetResponse(old(cache)[filename], mimeOf(filename))
        && cache == old(cache) && hits == old(hits) + 1 && misses == old(misses)
      ensures filename !in old(cache) && AssetPath(filename) in fs ==>
        var a := Asset(fs[AssetPath(filename)], ETag(sha256(fs[AssetPath(filename)])));
        && resp == AssetResponse(a, mimeOf(filename))
        && cache == old(cache)[filename := a] && hits == old(hits) && misses == old(misses) + 1
      ensures filename !in old(cache) && AssetPath(filename) !in fs ==>
        && resp == TextResponse(NotFound, NotFoundBody)
        && cache == old(cache) && hits == old(hits) && misses == old(misses) && served == old(served)
    {
      if filename in cache {
        resp := ServeCached(filename, headers, mimeOf);
      } else {
        resp := ServeFromDisk(filename, fs, mimeOf);
      }
    }

    /** The counters `health_check` reports. */
    method Stats() returns (h: nat, m: nat, n: nat)
      requires Valid()
      ensures h == hits && m == misses && n == items
      ensures n == |cache| && h + m == served
    {
      h, m, n := hits, misses, items;
    }
  }

  /** A first request fills the cache; the same file asked again with its ETag gets a 304. */
  method Revalidate(sha256: Sha256, filename: string, fs: FileSystem, mimeOf: MimeGuess)
    requires !StartsWith(filename, "/") && AssetDirectory + "/" + filename in fs
  {
    var server := new AssetServer(sha256);
    var first := server.ServeAsset(filename, [], fs, mimeOf);
    var etag := ETag(sha256(fs[AssetDirectory + "/" + filename]));
    assert first.status == Ok && first.headers[ETagHeader] == [etag];
    ETagToStrOk(sha256(fs[AssetDirectory + "/" + filename]));
    var headers := [Header(IfNoneMatch, etag)];
    assert headers[..0] == [];
    assert ValuesOf(headers, IfNoneMatch) == [etag];
    var second := server.ServeAsset(filename, headers, fs, mimeOf);
    assert second == NotModifiedResponse;
    var h, m, n := server.Stats();
    assert h == 1 && m == 1 && n == 1;
  }
}
