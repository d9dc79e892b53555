/**
 * What the content-extraction proxy (r.jina.ai) can answer, and the
 * post-fetch validity checks that the crawler and the optimised fetcher share:
 * the JSON code-451 "blocked" notice (HTTP status 451 of RFC 7725, section 3),
 * the minimum length, and the error-indicator phrases.
 */
module ContentFilter {
  import opened Results
  import opened PyText

  /**
   * The outcome of one request to the proxy. `jsonCode` is the `code` member of
   * the body when the body parses as a JSON object that has one.
   */
  datatype Transport =
    | Timeout
    | Failed
    | Reply(status: int, contentType: string, body: string, jsonCode: Option<int>)

  /** Shortest stripped body accepted as article text. */
  const MinLength: nat := 100

  /** Phrases that mark a body as an error page or a consent wall. */
  const Indicators: seq<string> := [
    "blocked until", "ddos attack", "consent.yahoo.com",
    "collectConsent", "Warning: Target URL", "404 Not Found",
    "Access Denied", "Please enable JavaScript"
  ]

  /** `indicator.lower() in content_lower` holds for some indicator. */
  predicate HasIndicator(contentLower: string)
  {
    exists i :: 0 <= i < |Indicators| && Contains(contentLower, Lower(Indicators[i]))
  }

  /** The early-return loop over the indicators. */
  method ScanIndicators(contentLower: string) returns (hit: bool)
    ensures hit == HasIndicator(contentLower)
  {
    var i := 0;
    while i < |Indicators|
      invariant 0 <= i <= |Indicators|
      invariant forall k :: 0 <= k < i ==> !Contains(contentLower, Lower(Indicators[k]))
    {
      if Contains(contentLower, Lower(Indicators[i])) {
        return true;
      }
      i := i + 1;
    }
    return false;
  }

  /** `raise_for_status()` raises for the 4xx and 5xx statuses. */
  predicate IsHttpError(status: int)
  {
    400 <= status < 600
  }

  /** A JSON body whose `code` is 451: the proxy refuses the site. */
  predicate IsBlockedNotice(t: Transport)
  {
    t.Reply? && StartsWith(t.contentType, "application/json") && t.jsonCode == Some(451)
  }
}
