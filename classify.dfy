/**
 * The request filter and classifier of background.js: plain substring
 * tests on the request URL, first match wins.
 */
module Classifier {
  import opened Text
  import opened Messages

  const GA4Collect := "google-analytics.com/g/collect"
  const UACollect := "google-analytics.com/collect"
  const AnalyticsHost := "analytics.google.com"
  const GtmScript := "googletagmanager.com/gtm.js"
  const GtagScript := "googletagmanager.com/gtag/"
  const GtmHost := "googletagmanager.com"
  const GaHost := "google-analytics.com"

  /**
   * `isAnalyticsRequest(url)`: whether the background tracks the request at
   * all. Only URLs naming one of the three Google hosts pass, and every URL
   * on `analytics.google.com` does.
   */
  function IsAnalyticsRequest(url: string): (tracked: bool)
    ensures tracked ==> Contains(url, GaHost) || Contains(url, AnalyticsHost) || Contains(url, GtmHost)
    ensures Contains(url, AnalyticsHost) ==> tracked
  {
    CollectPathsOnGaHost(url);
    ScriptPathsOnGtmHost(url);
    || Contains(url, GA4Collect)
    || Contains(url, UACollect)
    || Contains(url, AnalyticsHost)
    || Contains(url, GtmScript)
    || Contains(url, GtagScript)
  }

  /** `getRequestType(url)`: the first pattern the URL contains decides. */
  function GetRequestType(url: string): (r: RequestType)
    ensures r.Unknown? <==>
      !Contains(url, GA4Collect) && !Contains(url, UACollect) && !Contains(url, GtmHost) && !Contains(url, AnalyticsHost)
  {
    if Contains(url, GA4Collect) then GA4
    else if Contains(url, UACollect) then UA
    else if Contains(url, GtmHost) then GTM
    else if Contains(url, AnalyticsHost) then GA
    else Unknown
  }

  /** Both script paths the filter knows lie on the tag manager host. */
  lemma ScriptPathsOnGtmHost(url: string)
    ensures Contains(url, GtmScript) ==> Contains(url, GtmHost)
    ensures Contains(url, GtagScript) ==> Contains(url, GtmHost)
  {
    PrefixContained(GtmScript, GtmHost);
    PrefixContained(GtagScript, GtmHost);
    if Contains(url, GtmScript) {
      ContainsTransitive(url, GtmScript, GtmHost);
    }
    if Contains(url, GtagScript) {
      ContainsTransitive(url, GtagScript, GtmHost);
    }
  }

  /** Both collect paths lie on the `google-analytics.com` host. */
  lemma CollectPathsOnGaHost(url: string)
    ensures Contains(url, GA4Collect) ==> Contains(url, GaHost)
    ensures Contains(url, UACollect) ==> Contains(url, GaHost)
  {
    PrefixContained(GA4Collect, GaHost);
    PrefixContained(UACollect, GaHost);
    if Contains(url, GA4Collect) {
      ContainsTransitive(url, GA4Collect, GaHost);
    }
    if Contains(url, UACollect) {
      ContainsTransitive(url, UACollect, GaHost);
    }
  }

  /** Nothing the filter lets through is classified `Unknown`. */
  lemma FilteredNeverUnknown(url: string)
    requires IsAnalyticsRequest(url)
    ensures GetRequestType(url) != Unknown
  {
    ScriptPathsOnGtmHost(url);
  }

  /**
   * Substring precedence, not host precedence: a URL on the tag manager host
   * that holds neither collect path is classified GTM, even when it also
   * names `analytics.google.com` or `google-analytics.com`.
   */
  lemma GtmBeforeAnalyticsHost(url: string)
    requires Contains(url, GtmHost)
    requires !Contains(url, GA4Collect) && !Contains(url, UACollect)
    ensures GetRequestType(url) == GTM
    ensures GetRequestType(url) != GA
  {
  }
}
