/** The HTTP client's response interceptor: one refresh-and-retry for a 401, never for
    the logout and refresh endpoints or a request that asked to be left alone. */
module ApiClient {
  import opened Wrappers
  import Text

  /** The request config the interceptor sees; `retry` is the `_retry` mark it sets. */
  class RequestConfig {
    const url: Option<string>
    const skipRefresh: bool
    var retry: bool

    constructor (url: Option<string>, skipRefresh: bool)
      ensures this.url == url && this.skipRefresh == skipRefresh && !retry
    {
      this.url := url;
      this.skipRefresh := skipRefresh;
      retry := false;
    }
  }

  /** `url?.includes(part)`: an absent url includes nothing. */
  predicate UrlIncludes(url: Option<string>, part: string) {
    url.Some? && Text.Includes(url.value, part)
  }

  /** The condition under which a failed request is refreshed and retried. */
  predicate ShouldRefresh(status: Option<int>, url: Option<string>, retry: bool, skipRefresh: bool) {
    status == Some(401) && !retry && !skipRefresh
    && !UrlIncludes(url, "/auth/logout") && !UrlIncludes(url, "/auth/refresh")
  }

  /** Nothing retries the refresh call itself, so a failing refresh cannot loop. */
  lemma RefreshNeverRefreshed(status: Option<int>, url: string, retry: bool, skipRefresh: bool)
    requires Text.Includes(url, "/auth/refresh")
    ensures !ShouldRefresh(status, Some(url), retry, skipRefresh)
  {
  }

  /** What the interceptor does with a failure: the original request is sent again, or a
      rejection carries the refresh error or the original error. */
  datatype Outcome<E> = Reissue(config: RequestConfig) | RejectRefresh(refreshError: E) | RejectOriginal(error: E)

  /** The error handler. `refresh` is the outcome of the refresh call, used only when one is
      made. */
  method OnError<E>(error: E, status: Option<int>, config: RequestConfig, refresh: Result<(), E>)
    returns (o: Outcome<E>)
    modifies config
    ensures ShouldRefresh(status, config.url, old(config.retry), config.skipRefresh) ==>
      config.retry && (if refresh.Ok? then o == Reissue(config) else o == RejectRefresh(refresh.error))
    ensures !ShouldRefresh(status, config.url, old(config.retry), config.skipRefresh) ==>
      o == RejectOriginal(error) && config.retry == old(config.retry)
  {
    if status == Some(401) && !config.retry && !config.skipRefresh
       && !UrlIncludes(config.url, "/auth/logout") && !UrlIncludes(config.url, "/auth/refresh") {
      config.retry := true;
      if refresh.Ok? {
        return Reissue(config);
      }
      return RejectRefresh(refresh.error);
    }
    return RejectOriginal(error);
  }

  /** A request is retried at most once: when the reissued request fails with 401 again,
      the original error is rejected. */
  method RetriedAtMostOnce(url: string) returns (first: Outcome<string>, second: Outcome<string>)
    requires !Text.Includes(url, "/auth/logout") && !Text.Includes(url, "/auth/refresh")
    ensures first.Reissue?
    ensures second == RejectOriginal("401 again")
  {
    var config := new RequestConfig(Some(url), false);
    first := OnError("401", Some(401), config, Ok(()));
    second := OnError("401 again", Some(401), config, Ok(()));
  }
}
