/**
 * The client's configuration and constants, and the header rule shared by
 * both operations: the API key is added only for URLs under the configured
 * API base URL.
 */
module Client {

  /** The values the client reads from the application configuration. */
  datatype Config = Config(downloadsDir: string, apiUrl: string, apiKey: string)

  type Headers = map<string, string>

  const ApiKeyHeader: string := "X-API-Key"

  /** The size `download_file` asks the stream to cut the body into. */
  const ChunkSize: nat := 8192
  /** The default `max_retries` of `make_request`. */
  const MaxRetries: int := 2
  /** The default `backoff_factor` of `make_request`, in seconds. */
  const BackoffFactor: real := 1.0

  /** `API_URL and url.startswith(API_URL)`: a plain string-prefix test, not an origin comparison. */
  predicate SendsApiKey(cfg: Config, url: string) {
    cfg.apiUrl != "" && cfg.apiUrl <= url
  }

  /** The headers sent for `url`: the caller's headers, with the key set when the URL is an API URL. */
  function ApiHeaders(cfg: Config, url: string, base: Headers): (headers: Headers)
    ensures headers.Keys == base.Keys + (if SendsApiKey(cfg, url) then {ApiKeyHeader} else {})
    ensures forall k :: k in headers && k != ApiKeyHeader ==> headers[k] == base[k]
    ensures ApiKeyHeader in headers ==>
              headers[ApiKeyHeader] == (if SendsApiKey(cfg, url) then cfg.apiKey else base[ApiKeyHeader])
  {
    if SendsApiKey(cfg, url) then base[ApiKeyHeader := cfg.apiKey] else base
  }

  /** `_get_headers`: copy the caller's map, then set the key on the copy. */
  method GetHeaders(cfg: Config, url: string, base: Headers) returns (headers: Headers)
    ensures headers == ApiHeaders(cfg, url, base)
    ensures SendsApiKey(cfg, url) ==> ApiKeyHeader in headers && headers[ApiKeyHeader] == cfg.apiKey
    ensures !SendsApiKey(cfg, url) ==> headers == base
  {
    headers := base;
    if cfg.apiUrl != "" && cfg.apiUrl <= url {
      headers := headers[ApiKeyHeader := cfg.apiKey];
    }
  }

  /**
   * The key reaches a request only when the URL is an API URL, unless the
   * caller put it there: both directions.
   */
  lemma ApiKeyOnlyForApiUrls(cfg: Config, url: string, base: Headers)
    ensures var headers := ApiHeaders(cfg, url, base);
      (ApiKeyHeader in headers <==> SendsApiKey(cfg, url) || ApiKeyHeader in base) &&
      (!SendsApiKey(cfg, url) ==> headers == base)
  {
  }

  /**
   * Because the test is on the string prefix, a host name that merely
   * extends the API URL's host receives the key too.
   */
  lemma PrefixMatchIsNotOriginMatch(cfg: Config, rest: string)
    requires cfg.apiUrl != ""
    ensures ApiKeyHeader in ApiHeaders(cfg, cfg.apiUrl + rest, map[])
  {
  }

  /** An unset API URL never sends the key. */
  lemma NoApiUrlNoKey(cfg: Config, url: string, base: Headers)
    requires cfg.apiUrl == ""
    ensures ApiHeaders(cfg, url, base) == base
  {
  }
}
