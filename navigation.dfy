/** The address a page path is opened at: the site's base URL followed by the path with a trailing `/`. */
module Navigation {

  /** The site's base URL: served over HTTPS, and with no trailing `/`, so a path is appended right after the host. */
  function BaseUrl(): (url: string)
    ensures "https://" <= url && !EndsWithSlash(url)
  {
    "https://www.instagram.com"
  }

  predicate EndsWithSlash(s: string)
  {
    |s| > 0 && s[|s| - 1] == '/'
  }

  /**
   * The path extended by at most one character so that it ends in `/`;
   * a path that already ends in `/` is kept as it is.
   */
  function WithTrailingSlash(path: string): (p: string)
    ensures EndsWithSlash(p)
    ensures path <= p && |p| <= |path| + 1
    ensures EndsWithSlash(path) ==> p == path
  {
    if EndsWithSlash(path) then path else path + "/"
  }

  /** The URL a path is opened at: always under the base URL and always ending in `/`. */
  function NavigationUrl(path: string): (url: string)
    ensures BaseUrl() <= url && EndsWithSlash(url)
    ensures url[|BaseUrl()|..] == WithTrailingSlash(path)
  {
    BaseUrl() + WithTrailingSlash(path)
  }

  /** Adding the trailing slash a second time changes nothing. */
  lemma WithTrailingSlashIdempotent(path: string)
    ensures WithTrailingSlash(WithTrailingSlash(path)) == WithTrailingSlash(path)
  {
  }

  /** The normalised path is the shortest extension of the path that ends in `/`. */
  lemma ShortestSlashExtension(path: string, q: string)
    requires path <= q && EndsWithSlash(q)
    ensures |WithTrailingSlash(path)| <= |q|
  {
    if !EndsWithSlash(path) {
      assert q != path;
    }
  }

  /** Two paths give the same URL exactly when they agree after the trailing slash is added. */
  lemma NavigationUrlInjective(p1: string, p2: string)
    ensures NavigationUrl(p1) == NavigationUrl(p2) <==> WithTrailingSlash(p1) == WithTrailingSlash(p2)
  {
    if NavigationUrl(p1) == NavigationUrl(p2) {
      assert NavigationUrl(p1)[|BaseUrl()|..] == NavigationUrl(p2)[|BaseUrl()|..];
    }
  }

  /** The login page path is used as it is; a profile path gains its slash; the empty path is the site's root. */
  lemma NavigationExamples()
    ensures NavigationUrl("/accounts/login/") == "https://www.instagram.com/accounts/login/"
    ensures NavigationUrl("/someone") == "https://www.instagram.com/someone/"
    ensures NavigationUrl("") == "https://www.instagram.com/"
  {
  }
}
