/**
 * The single-search seller finder and the issue-file updater: the DuckDuckGo
 * result filter, the "verify until the target count" loop, the LLM query
 * extraction, the URL host naming of saved records and the loop that adds
 * seller lists to the issues of an analysis file.
 *
 * DuckDuckGo is a function from (query, requested result count) to the raw
 * results, None when the search raised; page verdicts come from a function
 * of the URL (for a given description); the LLM extraction reply is a
 * function of the recommendation text.
 */
module DuckDuckGoSearch {
  import opened Common
  import opened Strings
  import opened WebpageAnalysis

  /** One raw search result: its 'href' and 'link' entries, when present. */
  datatype SearchHit = SearchHit(href: Option<string>, link: Option<string>)

  /** `r.get('href') or r.get('link')`: the first of the two that is present and non-empty. */
  function HitUrl(hit: SearchHit): (r: Option<string>)
    ensures r.Some? ==> r.value != [] && (Some(r.value) == hit.href || Some(r.value) == hit.link)
    ensures r.None? <==> (hit.href.None? || hit.href.value == []) && (hit.link.None? || hit.link.value == [])
    ensures hit.href.Some? && hit.href.value != [] ==> r == hit.href
  {
    if hit.href.Some? && hit.href.value != [] then hit.href
    else if hit.link.Some? && hit.link.value != [] then hit.link
    else None
  }

  /** The URLs of the results that have one, in order. */
  function HitUrls(hits: seq<SearchHit>): (r: seq<string>)
    ensures |r| <= |hits|
  {
    if hits == [] then []
    else
      var rest := HitUrls(hits[1..]);
      match HitUrl(hits[0])
      case Some(u) => [u] + rest
      case None => rest
  }

  /** Each URL kept is a non-empty URL of some result, and every result with a URL contributes it. */
  lemma {:induction false} HitUrlsSpec(hits: seq<SearchHit>)
    ensures forall k :: 0 <= k < |HitUrls(hits)| ==>
      HitUrls(hits)[k] != [] && exists j :: 0 <= j < |hits| && HitUrl(hits[j]) == Some(HitUrls(hits)[k])
    ensures forall j :: 0 <= j < |hits| && HitUrl(hits[j]).Some? ==> HitUrl(hits[j]).value in HitUrls(hits)
    decreases |hits|
  {
    if hits != [] {
      HitUrlsSpec(hits[1..]);
      assert forall j :: 1 <= j < |hits| ==> hits[j] == hits[1..][j - 1];
      var r := HitUrls(hits);
      var rest := HitUrls(hits[1..]);
      forall k | 0 <= k < |r|
        ensures r[k] != [] && exists j :: 0 <= j < |hits| && HitUrl(hits[j]) == Some(r[k])
      {
        if HitUrl(hits[0]).Some? {
          if k == 0 {
            assert HitUrl(hits[0]) == Some(r[k]);
          } else {
            assert r[k] == rest[k - 1];
            var j :| 0 <= j < |hits[1..]| && HitUrl(hits[1..][j]) == Some(rest[k - 1]);
            assert HitUrl(hits[j + 1]) == Some(r[k]);
          }
        } else {
          assert r[k] == rest[k];
          var j :| 0 <= j < |hits[1..]| && HitUrl(hits[1..][j]) == Some(rest[k]);
          assert HitUrl(hits[j + 1]) == Some(r[k]);
        }
      }
    }
  }

  /** `search_with_duckduckgo`: the URLs of the results, or none at all when the search raised. */
  function SearchUrls(outcome: Option<seq<SearchHit>>): (r: seq<string>)
    ensures outcome.None? ==> r == []
    ensures outcome.Some? ==> r == HitUrls(outcome.value)
  {
    if outcome.None? then [] else HitUrls(outcome.value)
  }

  /** The query both seller finders send. */
  function SellerQuery(description: string, location: string): string
  {
    "buy " + description + " " + location + " furniture store"
  }

  // ---------------------------------------------------------------------
  // Verify until the target count
  // ---------------------------------------------------------------------

  /**
   * Where the loop `for url in results: if len(verified) >= target: break ...`
   * stops, starting at position `i`: the first position at which the URLs
   * verified so far reach the target, or the end.
   */
  function StopIndex(urls: seq<string>, target: int, verdict: string -> Verdict, i: nat): (n: nat)
    requires i <= |urls|
    ensures i <= n <= |urls|
    ensures n < |urls| ==> |Verified(urls[..n], verdict)| >= target
    ensures forall j :: i <= j < n ==> |Verified(urls[..j], verdict)| < target
    decreases |urls| - i
  {
    if i == |urls| || |Verified(urls[..i], verdict)| >= target then i
    else StopIndex(urls, target, verdict, i + 1)
  }

  /** The sellers the loop keeps: the verified URLs among those it examined before stopping. */
  function VerifyUntilTarget(urls: seq<string>, target: int, verdict: string -> Verdict): seq<CheckedUrl>
  {
    Verified(urls[..StopIndex(urls, target, verdict, 0)], verdict)
  }

  /** The loop never keeps more sellers than the target. */
  lemma VerifyUntilTargetBound(urls: seq<string>, target: int, verdict: string -> Verdict)
    requires target >= 0
    ensures |VerifyUntilTarget(urls, target, verdict)| <= target
  {
    var n := StopIndex(urls, target, verdict, 0);
    if n > 0 {
      assert urls[..n] == urls[..n - 1] + [urls[n - 1]];
      VerifiedSnoc(urls[..n - 1], urls[n - 1], verdict);
    }
  }

  /** When the target is not reached, every URL has been examined. */
  lemma VerifyUntilTargetShort(urls: seq<string>, target: int, verdict: string -> Verdict)
    requires |VerifyUntilTarget(urls, target, verdict)| < target
    ensures VerifyUntilTarget(urls, target, verdict) == Verified(urls, verdict)
  {
    var n := StopIndex(urls, target, verdict, 0);
    assert n == |urls|;
    assert urls[..n] == urls;
  }

  /** `find_verified_furniture_sellers` as a value: the sellers kept and `len(results)`. */
  function SellersFound(description: string, location: string, target: int,
                        search: (string, int) -> Option<seq<SearchHit>>, verdict: string -> Verdict)
    : (r: (seq<CheckedUrl>, nat))
    ensures SearchUrls(search(SellerQuery(description, location), target * 2)) == [] ==> r == ([], 0)
    ensures r.1 == |SearchUrls(search(SellerQuery(description, location), target * 2))|
  {
    var results := SearchUrls(search(SellerQuery(description, location), target * 2));
    if results == [] then ([], 0) else (VerifyUntilTarget(results, target, verdict), |results|)
  }

  /**
   * `find_verified_furniture_sellers`: one search for `2 * target` results,
   * then each result in order is verified while fewer than `target` sellers
   * have been found. The second result is the number of search hits.
   */
  method FindVerifiedSellers(description: string, location: string, target: int,
                             search: (string, int) -> Option<seq<SearchHit>>, verdict: string -> Verdict)
    returns (verified: seq<CheckedUrl>, hits: nat)
    ensures (verified, hits) == SellersFound(description, location, target, search, verdict)
    ensures target >= 0 ==> |verified| <= target
  {
    var results := SearchUrls(search(SellerQuery(description, location), target * 2));
    if results == [] {
      return [], 0;
    }
    verified := [];
    var i := 0;
    while i < |results|
      invariant 0 <= i <= |results|
      invariant verified == Verified(results[..i], verdict)
      invariant StopIndex(results, target, verdict, 0) == StopIndex(results, target, verdict, i)
    {
      if |verified| >= target {
        break;
      }
      var url := results[i];
      var v := verdict(url);
      VerifiedSnoc(results[..i], url, verdict);
      assert results[..i + 1] == results[..i] + [url];
      if v.selling {
        verified := verified + [CheckedUrl(url, v.reason)];
      }
      i := i + 1;
    }
    hits := |results|;
    if target >= 0 {
      VerifyUntilTargetBound(results, target, verdict);
    }
  }

  // ---------------------------------------------------------------------
  // Query extraction
  // ---------------------------------------------------------------------

  /**
   * `extract_search_query(recommendation)` given the LLM's reply: None
   * without asking when OPENROUTER_API_KEY is unset or empty, None when the
   * call failed, else the stripped reply.
   */
  function ExtractSearchQuery(apiKey: Option<string>, reply: Option<string>): (r: Option<string>)
    ensures apiKey.None? || apiKey.value == [] ==> r.None?
    ensures r.Some? <==> apiKey.Some? && apiKey.value != [] && reply.Some?
    ensures r.Some? ==> r.value == Strip(reply.value)
    ensures r.Some? ==> Strip(r.value) == r.value && |r.value| <= |reply.value|
  {
    if apiKey.None? || apiKey.value == [] then None
    else if reply.None? then None
    else
      StripIdempotent(reply.value);
      Some(Strip(reply.value))
  }

  // ---------------------------------------------------------------------
  // Host names of saved sellers
  // ---------------------------------------------------------------------

  predicate IsAsciiLetter(c: char)
  {
    'a' <= c <= 'z' || 'A' <= c <= 'Z'
  }

  /** The code points allowed in a URL scheme. */
  predicate IsSchemeChar(c: char)
  {
    IsAsciiLetter(c) || '0' <= c <= '9' || c == '+' || c == '-' || c == '.'
  }

  /** The code points that end the network location of a URL. */
  predicate IsNetlocDelimiter(c: char)
  {
    c == '/' || c == '?' || c == '#'
  }

  /** What follows the scheme and its ':', or the whole URL when it does not start with a valid scheme. */
  function AfterScheme(url: string): (r: string)
    ensures |r| <= |url|
  {
    var head := TakeUntil(url, c => c == ':');
    if 0 < |head| < |url| && IsAsciiLetter(url[0]) && (forall k :: 0 <= k < |head| ==> IsSchemeChar(head[k]))
    then url[|head| + 1..]
    else url
  }

  /** `urlparse(url).netloc`: after the scheme, the text between "//" and the next '/', '?' or '#'. */
  function Netloc(url: string): (r: string)
    ensures |r| <= |url|
    ensures forall k :: 0 <= k < |r| ==> !IsNetlocDelimiter(r[k])
  {
    var rest := AfterScheme(url);
    if |rest| >= 2 && rest[..2] == "//" then TakeUntil(rest[2..], IsNetlocDelimiter) else ""
  }

  /** For `scheme://host` followed by a path, query or fragment (or nothing), the network location is `host`. */
  lemma NetlocOfUrl(scheme: string, host: string, tail: string)
    requires scheme != [] && IsAsciiLetter(scheme[0])
    requires forall k :: 0 <= k < |scheme| ==> IsSchemeChar(scheme[k])
    requires forall k :: 0 <= k < |host| ==> !IsNetlocDelimiter(host[k])
    requires tail == [] || IsNetlocDelimiter(tail[0])
    ensures Netloc(scheme + "://" + host + tail) == host
  {
    var url := scheme + "://" + host + tail;
    var isColon := c => c == ':';
    assert url == scheme + (":" + "//" + host + tail);
    TakeUntilConcat(scheme, ":" + "//" + host + tail, isColon);
    assert url[|scheme| + 1..] == "//" + (host + tail);
    TakeUntilConcat(host, tail, IsNetlocDelimiter);
  }

  /** `urlparse(url).netloc.replace('www.', '')`. */
  function NetlocName(url: string): (r: string)
    ensures |r| <= |Netloc(url)|
    ensures forall k :: 0 <= k < |r| ==> !IsNetlocDelimiter(r[k])
  {
    RemoveAll(Netloc(url), "www.")
  }

  /** One object of the saved JSON list. */
  datatype SellerRecord = SellerRecord(websiteName: string, websiteLink: string, reason: Reason)

  /** The list `save_to_json` writes: one record per seller, in order. */
  function SellerRecords(sellers: seq<CheckedUrl>): (r: seq<SellerRecord>)
    ensures |r| == |sellers|
    ensures forall k :: 0 <= k < |r| ==> r[k].websiteLink == sellers[k].url && r[k].reason == sellers[k].reason
    ensures forall k :: 0 <= k < |r| ==> r[k].websiteName == NetlocName(sellers[k].url)
  {
    seq(|sellers|, k requires 0 <= k < |sellers| =>
      SellerRecord(NetlocName(sellers[k].url), sellers[k].url, sellers[k].reason))
  }

  // ---------------------------------------------------------------------
  // The issue-file updater
  // ---------------------------------------------------------------------

  /**
   * One entry of the 'issues' list: the keys the updater reads or writes
   * (every other key is carried along unchanged and is not modelled).
   */
  datatype Issue = Issue(
    item: Option<string>,
    recommendation: Option<string>,
    websiteNames: Option<seq<string>>,
    websiteLinks: Option<seq<string>>,
    searchQueryUsed: Option<string>)

  /** Sellers wanted per issue by the updater. */
  const IssueTarget := 5
  const DefaultLocation := "Singapore"

  /** `issue.get('recommendation', '')`. */
  function RecommendationOf(issue: Issue): string
  {
    if issue.recommendation.Some? then issue.recommendation.value else ""
  }

  /** Both website keys are present. */
  predicate HasWebsiteInfo(issue: Issue)
  {
    issue.websiteNames.Some? && issue.websiteLinks.Some?
  }

  /** The issue with 'Website name' and 'Website link' set from `sellers`, in their order. */
  function AddSellers(issue: Issue, sellers: seq<CheckedUrl>): (r: Issue)
    ensures r.item == issue.item && r.recommendation == issue.recommendation
    ensures r.searchQueryUsed == issue.searchQueryUsed
    ensures HasWebsiteInfo(r)
    ensures |r.websiteLinks.value| == |r.websiteNames.value| == |sellers|
    ensures forall k :: 0 <= k < |sellers| ==>
      r.websiteLinks.value[k] == sellers[k].url && r.websiteNames.value[k] == NetlocName(sellers[k].url)
  {
    var links := seq(|sellers|, k requires 0 <= k < |sellers| => sellers[k].url);
    var names := seq(|sellers|, k requires 0 <= k < |sellers| => NetlocName(sellers[k].url));
    issue.(websiteNames := Some(names), websiteLinks := Some(links))
  }

  /**
   * The sellers the loop body finds for an issue's recommendation: none when
   * no query could be extracted, else those `find_verified_furniture_sellers`
   * keeps for the query.
   */
  function IssueSellers(issue: Issue, apiKey: Option<string>, extract: string -> Option<string>,
                        search: (string, int) -> Option<seq<SearchHit>>,
                        judge: string -> (string -> Verdict)): seq<CheckedUrl>
  {
    var query := ExtractSearchQuery(apiKey, extract(RecommendationOf(issue)));
    if query.None? || query.value == [] then []
    else SellersFound(query.value, DefaultLocation, IssueTarget, search, judge(query.value)).0
  }

  /**
   * What the loop body does to one issue; None when it reads a missing
   * 'item' key, which raises KeyError and ends the run before the file is
   * written.
   */
  function UpdateIssue(issue: Issue, apiKey: Option<string>, extract: string -> Option<string>,
                       search: (string, int) -> Option<seq<SearchHit>>,
                       judge: string -> (string -> Verdict)): (r: Option<Issue>)
    // already processed: left as it is (its item is printed)
    ensures HasWebsiteInfo(issue) ==> r == if issue.item.None? then None else Some(issue)
    // no recommendation: left as it is
    ensures !HasWebsiteInfo(issue) && RecommendationOf(issue) == [] ==> r == Some(issue)
    ensures r.None? ==> issue.item.None?
    // an issue that changes gets non-empty, equal-length name and link lists
    ensures r.Some? && r.value != issue ==>
      && !HasWebsiteInfo(issue) && RecommendationOf(issue) != []
      && r.value.item == issue.item && r.value.recommendation == issue.recommendation
      && HasWebsiteInfo(r.value)
      && |r.value.websiteNames.value| == |r.value.websiteLinks.value| > 0
    // an issue changes exactly when it is unprocessed, has a recommendation and an item, and sellers were found
    ensures r.Some? && r.value != issue <==>
      && !HasWebsiteInfo(issue) && RecommendationOf(issue) != [] && issue.item.Some?
      && IssueSellers(issue, apiKey, extract, search, judge) != []
    // and then its lists are those of the sellers found, in order
    ensures r.Some? && r.value != issue ==> r.value == AddSellers(issue, IssueSellers(issue, apiKey, extract, search, judge))
  {
    var recommendation := RecommendationOf(issue);
    if HasWebsiteInfo(issue) then
      if issue.item.None? then None else Some(issue)
    else if recommendation == [] then Some(issue)
    else if issue.item.None? then None
    else
      var query := ExtractSearchQuery(apiKey, extract(recommendation));
      if query.None? || query.value == [] then Some(issue)
      else
        var sellers := SellersFound(query.value, DefaultLocation, IssueTarget, search, judge(query.value)).0;
        if sellers == [] then Some(issue) else Some(AddSellers(issue, sellers))
  }

  /** The body of the updater's loop for one issue. */
  method ProcessIssue(issue: Issue, apiKey: Option<string>, extract: string -> Option<string>,
                      search: (string, int) -> Option<seq<SearchHit>>, judge: string -> (string -> Verdict))
    returns (r: Option<Issue>)
    ensures r == UpdateIssue(issue, apiKey, extract, search, judge)
  {
    var recommendation := RecommendationOf(issue);
    if HasWebsiteInfo(issue) {
      if issue.item.None? {
        return None;
      }
      return Some(issue);
    }
    if recommendation == [] {
      return Some(issue);
    }
    if issue.item.None? {
      return None;
    }
    var query := ExtractSearchQuery(apiKey, extract(recommendation));
    if query.None? || query.value == [] {
      return Some(issue);
    }
    var sellers, _ := FindVerifiedSellers(query.value, DefaultLocation, IssueTarget, search, judge(query.value));
    if sellers == [] {
      return Some(issue);
    }
    return Some(AddSellers(issue, sellers));
  }

  /** `after` is what the loop body makes of `before`. */
  ghost predicate UpdatedTo(before: Issue, after: Issue, apiKey: Option<string>, extract: string -> Option<string>,
                            search: (string, int) -> Option<seq<SearchHit>>, judge: string -> (string -> Verdict))
  {
    UpdateIssue(before, apiKey, extract, search, judge) == Some(after)
  }

  /**
   * The updater's loop over the issues, in place. `saved` says that the loop
   * finished and the file is rewritten; `stop` is where a KeyError ended it.
   */
  method UpdateIssues(issues: array<Issue>, apiKey: Option<string>, extract: string -> Option<string>,
                      search: (string, int) -> Option<seq<SearchHit>>, judge: string -> (string -> Verdict))
    returns (saved: bool, ghost stop: nat)
    modifies issues
    ensures stop <= issues.Length
    ensures saved <==> stop == issues.Length
    ensures forall i :: 0 <= i < stop ==> UpdatedTo(old(issues[..])[i], issues[i], apiKey, extract, search, judge)
    ensures stop < issues.Length ==> UpdateIssue(old(issues[..])[stop], apiKey, extract, search, judge).None?
    ensures forall i :: stop <= i < issues.Length ==> issues[i] == old(issues[..])[i]
  {
    ghost var original := issues[..];
    var i := 0;
    while i < issues.Length
      invariant 0 <= i <= issues.Length
      invariant forall j :: 0 <= j < i ==> UpdatedTo(original[j], issues[j], apiKey, extract, search, judge)
      invariant forall j :: i <= j < issues.Length ==> issues[j] == original[j]
    {
      var updated := ProcessIssue(issues[i], apiKey, extract, search, judge);
      if updated.None? {
        return false, i;
      }
      ghost var before := issues[..];
      issues[i] := updated.value;
      forall j | 0 <= j < i + 1
        ensures UpdatedTo(original[j], issues[j], apiKey, extract, search, judge)
      {
        if j < i {
          assert issues[j] == before[j];
        }
      }
      i := i + 1;
    }
    return true, issues.Length;
  }
}
