/** The configuration both variants read at start-up, with clap's defaults. */
module Config {

  import opened Wrappers
  import opened Text

  datatype Config = Config(
    originUrl: string,
    listenAddr: string,
    assetPath: string,
    cacheTtlSeconds: uint64,
    cacheSizeMb: uint64,
    tlsCertPath: Option<string>,
    tlsKeyPath: Option<string>)

  const DefaultListenAddr := "0.0.0.0:8080"
  const DefaultAssetPath := "/app/assets"
  const DefaultCacheTtlSeconds: uint64 := 300
  const DefaultCacheSizeMb: uint64 := 100

  /** The setting a failed load names (clap's own wording is not modelled). */
  const MissingOriginUrl := "origin_url"

  /**
   * `Config::load`: each setting as given on the command line or in the environment
   * (`None` when neither gives it). The origin URL has no default, so without it there
   * is no configuration; every other setting falls back to its default or stays absent.
   */
  function Load(originUrl: Option<string>, listenAddr: Option<string>, assetPath: Option<string>,
                cacheTtlSeconds: Option<uint64>, cacheSizeMb: Option<uint64>,
                tlsCertPath: Option<string>, tlsKeyPath: Option<string>): (r: Result<Config, string>)
    ensures r.Success? <==> originUrl.Some?
    ensures r.Success? ==> r.value.originUrl == originUrl.value
    ensures r.Success? && listenAddr.None? ==> r.value.listenAddr == DefaultListenAddr
    ensures r.Success? && listenAddr.Some? ==> r.value.listenAddr == listenAddr.value
    ensures r.Success? && assetPath.None? ==> r.value.assetPath == DefaultAssetPath
    ensures r.Success? && assetPath.Some? ==> r.value.assetPath == assetPath.value
    ensures r.Success? && cacheTtlSeconds.None? ==> r.value.cacheTtlSeconds == DefaultCacheTtlSeconds
    ensures r.Success? && cacheTtlSeconds.Some? ==> r.value.cacheTtlSeconds == cacheTtlSeconds.value
    ensures r.Success? && cacheSizeMb.None? ==> r.value.cacheSizeMb == DefaultCacheSizeMb
    ensures r.Success? && cacheSizeMb.Some? ==> r.value.cacheSizeMb == cacheSizeMb.value
    ensures r.Success? ==> r.value.tlsCertPath == tlsCertPath && r.value.tlsKeyPath == tlsKeyPath
  {
    match originUrl
    case None => Failure(MissingOriginUrl)
    case Some(origin) =>
      Success(Config(origin, listenAddr.GetOr(DefaultListenAddr), assetPath.GetOr(DefaultAssetPath),
                     cacheTtlSeconds.GetOr(DefaultCacheTtlSeconds), cacheSizeMb.GetOr(DefaultCacheSizeMb),
                     tlsCertPath, tlsKeyPath))
  }

  /** `Config::is_tls_enabled`. */
  predicate IsTlsEnabled(c: Config) {
    c.tlsCertPath.Some? && c.tlsKeyPath.Some?
  }

  /** The certificate and key paths as the asset server's start-up matches them (`if let (Some, Some)`). */
  function TlsPaths(c: Config): Option<(string, string)> {
    match (c.tlsCertPath, c.tlsKeyPath)
    case (Some(cert), Some(key)) => Some((cert, key))
    case _ => None
  }

  /** Both variants turn TLS on under the same condition: both paths given. */
  lemma TlsEnabledAgreesWithPaths(c: Config)
    ensures IsTlsEnabled(c) <==> TlsPaths(c).Some?
    ensures TlsPaths(c).Some? ==> TlsPaths(c).value == (c.tlsCertPath.value, c.tlsKeyPath.value)
  {
  }

  /** With only an origin URL given, the defaults apply and TLS is off. */
  lemma DefaultsOnlyOrigin(origin: string)
    ensures var r := Load(Some(origin), None, None, None, None, None, None);
      r == Success(Config(origin, "0.0.0.0:8080", "/app/assets", 300, 100, None, None))
      && !IsTlsEnabled(r.value)
  {
  }
}
