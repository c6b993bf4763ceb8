/**
 * The product search service's two endpoints: `/search`, which extracts a
 * product type and query from a recommendation and searches for sellers,
 * refining the query when a search finds none, and `/search/batch`, which
 * does the same for every issue of an analysis and writes the sellers into
 * the issues.
 *
 * The three collaborators the service imports are functions of their
 * arguments: the extractor gives (product type, query), with "" for None;
 * the seller finder and the query refiner also take the number of the
 * attempt, since the same call may answer differently each time.
 */
module ProductSearchServer {
  import opened Common
  import opened Strings
  import opened WebpageAnalysis
  import opened DuckDuckGoSearch

  /** `extract_search_query(item_name, recommendation)`: (product type, query). */
  type Extractor = (string, string) -> (string, string)
  /** `find_verified_sellers(query, product_type, location, target)` on a given attempt: the sellers. */
  type Finder = (string, string, string, int, nat) -> seq<CheckedUrl>
  /** `refine_search_query(query, product_type, attempted)` on a given attempt; "" for None. */
  type Refiner = (string, string, seq<string>, nat) -> string

  // ---------------------------------------------------------------------
  // Requests
  // ---------------------------------------------------------------------

  const RequestDefaultLocation := "Singapore"
  const DefaultTargetSellers := 5
  const DefaultMaxRetries := 3

  /** The status of a request that fails field validation, and of an endpoint that raised. */
  const ValidationFailed := 422
  const InternalError := 500

  /** The field bounds of both request models: 1..20 sellers, 1..5 attempts. */
  predicate WithinBounds(targetSellers: int, maxRetries: int)
  {
    1 <= targetSellers <= 20 && 1 <= maxRetries <= 5
  }

  datatype SearchRequest = SearchRequest(
    itemName: string,
    recommendation: string,
    location: string,
    targetSellers: int,
    maxRetries: int)

  /** A request that gives only the two required fields. */
  function DefaultRequest(itemName: string, recommendation: string): (r: SearchRequest)
    ensures WithinBounds(r.targetSellers, r.maxRetries)
  {
    SearchRequest(itemName, recommendation, RequestDefaultLocation, DefaultTargetSellers, DefaultMaxRetries)
  }

  // ---------------------------------------------------------------------
  // The retry loop
  // ---------------------------------------------------------------------

  /**
   * The retry loop's variables between two attempts: the sellers kept, the
   * current query, the queries tried, and how many searches ran.
   */
  datatype RetryState = RetryState(sellers: seq<CheckedUrl>, current: string, attempted: seq<string>, searches: nat)

  /** The state before the first attempt. */
  function InitialRetry(query: string): RetryState
  {
    RetryState([], query, [query], 0)
  }

  /**
   * The retry loop from attempt `attempt` on: search with the current
   * query; sellers end the loop; otherwise, unless this is the last
   * attempt, ask for a refined query and make it current when it is
   * non-empty and new. A refinement that is empty or already tried ends the
   * loop when `stopWhenStuck` (the single search) and is ignored otherwise
   * (the batch search, which then searches the same query again).
   */
  function Retry(productType: string, location: string, target: int, maxRetries: int,
                 find: Finder, refine: Refiner, stopWhenStuck: bool, attempt: nat, s: RetryState): RetryState
    decreases maxRetries - attempt
  {
    if attempt >= maxRetries then s
    else
      var found := find(s.current, productType, location, target, attempt);
      var searched := s.(searches := s.searches + 1);
      if found != [] then searched.(sellers := found)
      else if attempt < maxRetries - 1 then
        var refined := refine(s.current, productType, s.attempted, attempt);
        if refined != [] && refined !in s.attempted then
          Retry(productType, location, target, maxRetries, find, refine, stopWhenStuck, attempt + 1,
                searched.(current := refined, attempted := s.attempted + [refined]))
        else if stopWhenStuck then searched
        else Retry(productType, location, target, maxRetries, find, refine, stopWhenStuck, attempt + 1, searched)
      else searched
  }

  /** The tried queries: none twice, the current one last. */
  predicate QueryLog(attempted: seq<string>, current: string)
  {
    attempted != [] && Distinct(attempted) && current == attempted[|attempted| - 1]
  }

  /** What holds between attempts while no seller was found. */
  predicate Searching(s: RetryState, attempt: nat, maxRetries: int)
  {
    && QueryLog(s.attempted, s.current)
    && |s.attempted| <= attempt + 1 && |s.attempted| <= maxRetries
    && s.searches == attempt && s.sellers == []
  }

  /** Appending a query not tried before keeps the log free of duplicates. */
  lemma QueryLogSnoc(attempted: seq<string>, current: string, refined: string)
    requires QueryLog(attempted, current) && refined !in attempted
    ensures QueryLog(attempted + [refined], refined)
  {
    assert (attempted + [refined])[..|attempted|] == attempted;
  }

  /** One attempt that finds no seller and gets a new refinement keeps the loop's invariant. */
  lemma SearchingStep(s: RetryState, attempt: nat, maxRetries: int, refined: string)
    requires Searching(s, attempt, maxRetries) && attempt < maxRetries - 1 && refined !in s.attempted
    ensures Searching(RetryState(s.sellers, refined, s.attempted + [refined], s.searches + 1), attempt + 1, maxRetries)
  {
    QueryLogSnoc(s.attempted, s.current, refined);
  }

  /** An attempt that finds nothing and gets a new refinement moves on with it. */
  lemma RetryRefined(productType: string, location: string, target: int, maxRetries: int,
                    find: Finder, refine: Refiner, stopWhenStuck: bool, attempt: nat, s: RetryState, refined: string)
    requires attempt < maxRetries - 1 && find(s.current, productType, location, target, attempt) == []
    requires refined == refine(s.current, productType, s.attempted, attempt)
    requires refined != [] && refined !in s.attempted
    ensures Retry(productType, location, target, maxRetries, find, refine, stopWhenStuck, attempt, s)
         == Retry(productType, location, target, maxRetries, find, refine, stopWhenStuck, attempt + 1, RetryState(s.sellers, refined, s.attempted + [refined], s.searches + 1))
  {
  }

  /** In the batch loop, an attempt that finds nothing and gets no new refinement moves on with the same query. */
  lemma RetryRepeated(productType: string, location: string, target: int, maxRetries: int,
                    find: Finder, refine: Refiner, stopWhenStuck: bool, attempt: nat, s: RetryState)
    requires attempt < maxRetries - 1 && find(s.current, productType, location, target, attempt) == []
    requires var refined := refine(s.current, productType, s.attempted, attempt);
      refined == [] || refined in s.attempted
    requires !stopWhenStuck
    ensures Retry(productType, location, target, maxRetries, find, refine, stopWhenStuck, attempt, s) == Retry(productType, location, target, maxRetries, find, refine, stopWhenStuck, attempt + 1, s.(searches := s.searches + 1))
  {
  }

  /**
   * Every other attempt is the last one: it keeps the query and the tried
   * queries, counts its search, and keeps what that search found.
   */
  lemma RetryStops(productType: string, location: string, target: int, maxRetries: int,
                    find: Finder, refine: Refiner, stopWhenStuck: bool, attempt: nat, s: RetryState)
    requires attempt >= maxRetries - 1 || find(s.current, productType, location, target, attempt) != []
      || (stopWhenStuck && (refine(s.current, productType, s.attempted, attempt) == []
                            || refine(s.current, productType, s.attempted, attempt) in s.attempted))
    ensures var r := Retry(productType, location, target, maxRetries, find, refine, stopWhenStuck, attempt, s);
      && r.current == s.current && r.attempted == s.attempted
      && (attempt >= maxRetries ==> r == s)
      && (attempt < maxRetries ==>
            var found := find(s.current, productType, location, target, attempt);
            r.searches == s.searches + 1 && r.sellers == if found != [] then found else s.sellers)
  {
  }

  /** The tried queries `r` ends with extend those of `s` and stay a log of at most `maxRetries` queries. */
  predicate LogExtends(s: RetryState, r: RetryState, maxRetries: int)
  {
    QueryLog(r.attempted, r.current) && s.attempted <= r.attempted && |r.attempted| <= maxRetries
  }

  lemma LogExtendsTransitive(s: RetryState, t: RetryState, r: RetryState, maxRetries: int)
    requires s.attempted <= t.attempted && LogExtends(t, r, maxRetries)
    ensures LogExtends(s, r, maxRetries)
  {
    assert r.attempted[..|s.attempted|] == t.attempted[..|s.attempted|];
  }

  /** The last attempt leaves the tried queries as they were. */
  lemma LogAtStop(productType: string, location: string, target: int, maxRetries: int,
                    find: Finder, refine: Refiner, stopWhenStuck: bool, attempt: nat, s: RetryState)
    requires attempt <= maxRetries && Searching(s, attempt, maxRetries)
    requires attempt >= maxRetries - 1 || find(s.current, productType, location, target, attempt) != []
      || (stopWhenStuck && (refine(s.current, productType, s.attempted, attempt) == []
                            || refine(s.current, productType, s.attempted, attempt) in s.attempted))
    ensures LogExtends(s, Retry(productType, location, target, maxRetries, find, refine, stopWhenStuck, attempt, s), maxRetries)
  {
    RetryStops(productType, location, target, maxRetries, find, refine, stopWhenStuck, attempt, s);
  }

  /**
   * The retry loop keeps the tried queries free of duplicates, extends them
   * only at the end, keeps the current query last among them, and tries at
   * most `maxRetries` queries.
   */
  lemma {:induction false} RetryQueries(productType: string, location: string, target: int, maxRetries: int,
                    find: Finder, refine: Refiner, stopWhenStuck: bool, attempt: nat, s: RetryState)
    requires attempt <= maxRetries && Searching(s, attempt, maxRetries)
    ensures LogExtends(s, Retry(productType, location, target, maxRetries, find, refine, stopWhenStuck, attempt, s), maxRetries)
    decreases maxRetries - attempt
  {
    var refined := refine(s.current, productType, s.attempted, attempt);
    if attempt < maxRetries - 1 && find(s.current, productType, location, target, attempt) == [] {
      if refined != [] && refined !in s.attempted {
        var next := RetryState(s.sellers, refined, s.attempted + [refined], s.searches + 1);
        RetryRefined(productType, location, target, maxRetries, find, refine, stopWhenStuck, attempt, s, refined);
        SearchingStep(s, attempt, maxRetries, refined);
        RetryQueries(productType, location, target, maxRetries, find, refine, stopWhenStuck, attempt + 1, next);
        LogExtendsTransitive(s, next, Retry(productType, location, target, maxRetries, find, refine, stopWhenStuck, attempt + 1, next), maxRetries);
      } else if !stopWhenStuck {
        RetryRepeated(productType, location, target, maxRetries, find, refine, stopWhenStuck, attempt, s);
        RetryQueries(productType, location, target, maxRetries, find, refine, stopWhenStuck, attempt + 1, s.(searches := s.searches + 1));
      } else {
        LogAtStop(productType, location, target, maxRetries, find, refine, stopWhenStuck, attempt, s);
      }
    } else {
      LogAtStop(productType, location, target, maxRetries, find, refine, stopWhenStuck, attempt, s);
    }
  }

  /**
   * How the retry loop ends when started at attempt `attempt`: it searches
   * at least once (when an attempt is left) and at most `maxRetries` times;
   * sellers come from the last search, with the final query; the batch loop
   * gives up only after `maxRetries` searches; the single loop gives up
   * early only when the refinement was empty or already tried.
   */
  predicate RetryEnd(productType: string, location: string, target: int, maxRetries: int,
                    find: Finder, refine: Refiner, stopWhenStuck: bool, attempt: nat, r: RetryState)
  {
    && attempt <= r.searches <= maxRetries
    && (attempt < maxRetries ==> r.searches > attempt)
    && (r.sellers != [] ==> r.searches > 0 && r.sellers == find(r.current, productType, location, target, r.searches - 1))
    && (r.sellers == [] && !stopWhenStuck ==> r.searches == maxRetries)
    && (r.sellers == [] && 0 < r.searches < maxRetries ==>
          var refined := refine(r.current, productType, r.attempted, r.searches - 1);
          refined == [] || refined in r.attempted)
  }

  /** An ending reached from the next attempt is one reached from this attempt. */
  lemma RetryEndEarlier(productType: string, location: string, target: int, maxRetries: int,
                    find: Finder, refine: Refiner, stopWhenStuck: bool, attempt: nat, r: RetryState)
    requires attempt < maxRetries && RetryEnd(productType, location, target, maxRetries, find, refine, stopWhenStuck, attempt + 1, r)
    ensures RetryEnd(productType, location, target, maxRetries, find, refine, stopWhenStuck, attempt, r)
  {
  }

  /** The last attempt ends the loop as `RetryEnd` says. */
  lemma RetryEndAtStop(productType: string, location: string, target: int, maxRetries: int,
                    find: Finder, refine: Refiner, stopWhenStuck: bool, attempt: nat, s: RetryState)
    requires attempt <= maxRetries && Searching(s, attempt, maxRetries)
    requires attempt >= maxRetries - 1 || find(s.current, productType, location, target, attempt) != []
      || (stopWhenStuck && (refine(s.current, productType, s.attempted, attempt) == []
                            || refine(s.current, productType, s.attempted, attempt) in s.attempted))
    ensures RetryEnd(productType, location, target, maxRetries, find, refine, stopWhenStuck, attempt, Retry(productType, location, target, maxRetries, find, refine, stopWhenStuck, attempt, s))
  {
    RetryStops(productType, location, target, maxRetries, find, refine, stopWhenStuck, attempt, s);
  }

  /** Every run of the retry loop ends as `RetryEnd` says. */
  lemma {:induction false} RetrySearches(productType: string, location: string, target: int, maxRetries: int,
                    find: Finder, refine: Refiner, stopWhenStuck: bool, attempt: nat, s: RetryState)
    requires attempt <= maxRetries && Searching(s, attempt, maxRetries)
    ensures RetryEnd(productType, location, target, maxRetries, find, refine, stopWhenStuck, attempt, Retry(productType, location, target, maxRetries, find, refine, stopWhenStuck, attempt, s))
    decreases maxRetries - attempt
  {
    var refined := refine(s.current, productType, s.attempted, attempt);
    if attempt < maxRetries - 1 && find(s.current, productType, location, target, attempt) == [] {
      if refined != [] && refined !in s.attempted {
        var next := RetryState(s.sellers, refined, s.attempted + [refined], s.searches + 1);
        RetryRefined(productType, location, target, maxRetries, find, refine, stopWhenStuck, attempt, s, refined);
        SearchingStep(s, attempt, maxRetries, refined);
        RetrySearches(productType, location, target, maxRetries, find, refine, stopWhenStuck, attempt + 1, next);
        RetryEndEarlier(productType, location, target, maxRetries, find, refine, stopWhenStuck, attempt, Retry(productType, location, target, maxRetries, find, refine, stopWhenStuck, attempt + 1, next));
      } else if !stopWhenStuck {
        var searched := s.(searches := s.searches + 1);
        RetryRepeated(productType, location, target, maxRetries, find, refine, stopWhenStuck, attempt, s);
        RetrySearches(productType, location, target, maxRetries, find, refine, stopWhenStuck, attempt + 1, searched);
        RetryEndEarlier(productType, location, target, maxRetries, find, refine, stopWhenStuck, attempt, Retry(productType, location, target, maxRetries, find, refine, stopWhenStuck, attempt + 1, searched));
      } else {
        RetryEndAtStop(productType, location, target, maxRetries, find, refine, stopWhenStuck, attempt, s);
      }
    } else {
      RetryEndAtStop(productType, location, target, maxRetries, find, refine, stopWhenStuck, attempt, s);
    }
  }

  /** `for attempt in range(max_retries)` over the query refinements. */
  method RetrySearch(query: string, productType: string, location: string, target: int, maxRetries: int,
                     find: Finder, refine: Refiner, stopWhenStuck: bool)
    returns (sellers: seq<CheckedUrl>, current: string, attempted: seq<string>, ghost searches: nat)
    ensures Retry(productType, location, target, maxRetries, find, refine, stopWhenStuck, 0, InitialRetry(query))
         == RetryState(sellers, current, attempted, searches)
  {
    sellers := [];
    current := query;
    attempted := [query];
    searches := 0;
    var attempt: nat := 0;
    while attempt < maxRetries
      invariant searches == attempt && sellers == []
      invariant Retry(productType, location, target, maxRetries, find, refine, stopWhenStuck, 0, InitialRetry(query))
             == Retry(productType, location, target, maxRetries, find, refine, stopWhenStuck, attempt,
                      RetryState(sellers, current, attempted, searches))
      decreases maxRetries - attempt
    {
      var found := find(current, productType, location, target, attempt);
      searches := searches + 1;
      if found != [] {
        sellers := found;
        return;
      }
      if attempt < maxRetries - 1 {
        var refined := refine(current, productType, attempted, attempt);
        if refined != [] && refined !in attempted {
          current := refined;
          attempted := attempted + [refined];
        } else if stopWhenStuck {
          return;
        }
      }
      attempt := attempt + 1;
    }
  }

  // ---------------------------------------------------------------------
  // Seller names
  // ---------------------------------------------------------------------

  /**
   * `url.split('/')[2].replace('www.', '')`: None when the URL has fewer
   * than three '/'-separated pieces (an IndexError).
   */
  function WebsiteName(url: string): (r: Option<string>)
    ensures r.Some? <==> |SplitOn(url, '/')| >= 3
    ensures r.Some? ==> |r.value| <= |url| && forall k :: 0 <= k < |r.value| ==> r.value[k] != '/'
  {
    var pieces := SplitOn(url, '/');
    if |pieces| < 3 then None
    else
      Some(RemoveAll(pieces[2], "www."))
  }

  /** The third piece of `prefix//host` followed by a path (or nothing) is `host`. */
  lemma ThirdPiece(prefix: string, host: string, tail: string)
    requires forall k :: 0 <= k < |prefix| ==> prefix[k] != '/'
    requires forall k :: 0 <= k < |host| ==> host[k] != '/'
    requires tail == [] || tail[0] == '/'
    ensures |SplitOn(prefix + "//" + host + tail, '/')| >= 3
    ensures SplitOn(prefix + "//" + host + tail, '/')[2] == host
  {
    var rest := host + tail;
    var slashes := ['/'] + (['/'] + rest);
    assert prefix + "//" + host + tail == prefix + slashes;
    var pieces := SplitOn(prefix + slashes, '/');
    assert pieces[1..] == SplitOn(['/'] + rest, '/') by {
      SplitOnHead(prefix, slashes, '/');
      assert slashes[1..] == ['/'] + rest;
    }
    assert SplitOn(['/'] + rest, '/') == [""] + SplitOn(rest, '/') by {
      assert (['/'] + rest)[1..] == rest;
    }
    assert SplitOn(rest, '/')[0] == host by {
      SplitOnHead(host, tail, '/');
    }
  }

  lemma SchemeSeparator(scheme: string)
    ensures scheme + "://" == scheme + ":" + "//"
  {
  }

  /**
   * For `scheme://host` followed by a path (or nothing) the name is the host
   * without "www.", the same as the host name the issue updater saves.
   */
  lemma WebsiteNameOfUrl(scheme: string, host: string, tail: string)
    requires scheme != [] && IsAsciiLetter(scheme[0])
    requires forall k :: 0 <= k < |scheme| ==> IsSchemeChar(scheme[k])
    requires forall k :: 0 <= k < |host| ==> !IsNetlocDelimiter(host[k])
    requires tail == [] || tail[0] == '/'
    ensures WebsiteName(scheme + "://" + host + tail) == Some(RemoveAll(host, "www."))
    ensures WebsiteName(scheme + "://" + host + tail) == Some(NetlocName(scheme + "://" + host + tail))
  {
    var prefix := scheme + ":";
    SchemeSeparator(scheme);
    ThirdPiece(prefix, host, tail);
    NetlocOfUrl(scheme, host, tail);
  }

  /** A bare host with no scheme has no third piece: the endpoint answers 500. */
  lemma BareHostHasNoName()
    ensures WebsiteName("example.com") == None
  {
    var url := "example.com";
    assert forall k :: 0 <= k < |url| ==> url[k] != '/';
    SplitOnNoSeparator(url, '/');
  }

  datatype SellerInfo = SellerInfo(websiteName: string, websiteLink: string, reason: Reason)

  /** The `seller_list` comprehension: None when some URL has no name (the first IndexError). */
  function SellerList(sellers: seq<CheckedUrl>): (r: Option<seq<SellerInfo>>)
    ensures r.Some? <==> forall k :: 0 <= k < |sellers| ==> WebsiteName(sellers[k].url).Some?
    ensures r.Some? ==> |r.value| == |sellers|
    ensures r.Some? ==> forall k :: 0 <= k < |sellers| ==>
      r.value[k] == SellerInfo(WebsiteName(sellers[k].url).value, sellers[k].url, sellers[k].reason)
  {
    if sellers == [] then Some([])
    else
      var init := SellerList(sellers[..|sellers| - 1]);
      var last := sellers[|sellers| - 1];
      var name := WebsiteName(last.url);
      if init.None? || name.None? then None
      else Some(init.value + [SellerInfo(name.value, last.url, last.reason)])
  }

  // ---------------------------------------------------------------------
  // `/search`
  // ---------------------------------------------------------------------

  datatype SearchResponse = SearchResponse(
    success: bool,
    needsPurchase: bool,
    productType: Option<string>,
    originalQuery: Option<string>,
    finalQuery: Option<string>,
    attemptedQueries: seq<string>,
    sellers: seq<SellerInfo>,
    message: string)

  const NoPurchaseMessage := "No purchase required (rearrangement/organization only)"
  const NoSellersMessage := "No verified sellers found"

  /** `f"Found {len(seller_list)} verified sellers"`. */
  function FoundMessage(n: nat): string
  {
    "Found " + NatToString(n) + " verified sellers"
  }

  /** The answer when no purchase is needed: no search ran. */
  const NoPurchase := SearchResponse(true, false, None, None, None, [], [], NoPurchaseMessage)

  /** `search_product`: the response, or the HTTP status of the failure. */
  function SearchOutcome(request: SearchRequest, extract: Extractor, find: Finder, refine: Refiner)
    : Result<SearchResponse, int>
  {
    if !WithinBounds(request.targetSellers, request.maxRetries) then Err(ValidationFailed)
    else
      var (productType, query) := extract(request.itemName, request.recommendation);
      if query == [] || productType == [] then Ok(NoPurchase)
      else
        var r := Retry(productType, request.location, request.targetSellers, request.maxRetries,
                       find, refine, true, 0, InitialRetry(query));
        match SellerList(r.sellers)
        case None => Err(InternalError)
        case Some(list) =>
          Ok(SearchResponse(true, true, Some(productType), Some(query), Some(r.current), r.attempted, list,
                            if list != [] then FoundMessage(|list|) else NoSellersMessage))
  }

  /**
   * What `/search` promises: field bounds are enforced; an empty query or
   * product type means no purchase and no search; otherwise the tried
   * queries start with the original one, have no duplicates, number at most
   * `max_retries` and end with the final query. `SearchOutcomeSellers`
   * says which sellers come back.
   */
  lemma SearchOutcomeSpec(request: SearchRequest, extract: Extractor, find: Finder, refine: Refiner)
    ensures var r := SearchOutcome(request, extract, find, refine);
      && (r == Err(ValidationFailed) <==> !WithinBounds(request.targetSellers, request.maxRetries))
      && (r.Ok? ==> r.value.success)
      && (r.Ok? && !r.value.needsPurchase ==> r.value == NoPurchase)
      && (WithinBounds(request.targetSellers, request.maxRetries) ==>
            (r == Ok(NoPurchase) <==> extract(request.itemName, request.recommendation).1 == []
                                      || extract(request.itemName, request.recommendation).0 == []))
      && (r.Ok? && r.value.needsPurchase ==>
            var resp := r.value;
            && resp.originalQuery == Some(extract(request.itemName, request.recommendation).1)
            && resp.attemptedQueries != [] && Some(resp.attemptedQueries[0]) == resp.originalQuery
            && NoDuplicates(resp.attemptedQueries)
            && |resp.attemptedQueries| <= request.maxRetries
            && resp.finalQuery == Some(resp.attemptedQueries[|resp.attemptedQueries| - 1])
            && (resp.message == NoSellersMessage <==> resp.sellers == []))
  {
    var r := SearchOutcome(request, extract, find, refine);
    if WithinBounds(request.targetSellers, request.maxRetries) {
      var (productType, query) := extract(request.itemName, request.recommendation);
      if query != [] && productType != [] {
        var init := InitialRetry(query);
        RetryQueries(productType, request.location, request.targetSellers, request.maxRetries,
                     find, refine, true, 0, init);
        var rs := Retry(productType, request.location, request.targetSellers, request.maxRetries,
                        find, refine, true, 0, init);
        assert init.attempted <= rs.attempted;
        DistinctNoDuplicates(rs.attempted);
        if r.Ok? {
          var list := SellerList(rs.sellers).value;
          if list != [] {
            assert FoundMessage(|list|)[0] == 'F';
          }
        }
      }
    }
  }

  /**
   * The sellers `/search` answers with: past validation and extraction, it
   * answers 500 exactly when a seller URL has no third '/'-piece; otherwise
   * the sellers are those of the last search, in order, each named after
   * its host, and the final query is the one that search used.
   */
  lemma SearchOutcomeSellers(request: SearchRequest, extract: Extractor, find: Finder, refine: Refiner)
    requires WithinBounds(request.targetSellers, request.maxRetries)
    requires extract(request.itemName, request.recommendation).1 != []
    requires extract(request.itemName, request.recommendation).0 != []
    ensures var r := SearchOutcome(request, extract, find, refine);
      var (productType, query) := extract(request.itemName, request.recommendation);
      var rs := Retry(productType, request.location, request.targetSellers, request.maxRetries,
                      find, refine, true, 0, InitialRetry(query));
      && (r == Err(InternalError) <==> SellerList(rs.sellers).None?)
      && (r.Ok? ==>
            && r.value.needsPurchase
            && Some(r.value.sellers) == SellerList(rs.sellers)
            && r.value.finalQuery == Some(rs.current)
            && 1 <= rs.searches <= request.maxRetries
            && (rs.sellers != [] ==>
                  rs.sellers == find(rs.current, productType, request.location, request.targetSellers,
                                     rs.searches - 1)))
  {
    var (productType, query) := extract(request.itemName, request.recommendation);
    RetrySearches(productType, request.location, request.targetSellers, request.maxRetries,
                  find, refine, true, 0, InitialRetry(query));
  }

  /** `search_product`. */
  method SearchProduct(request: SearchRequest, extract: Extractor, find: Finder, refine: Refiner)
    returns (r: Result<SearchResponse, int>)
    ensures r == SearchOutcome(request, extract, find, refine)
  {
    if !WithinBounds(request.targetSellers, request.maxRetries) {
      return Err(ValidationFailed);
    }
    var (productType, query) := extract(request.itemName, request.recommendation);
    if query == [] || productType == [] {
      return Ok(NoPurchase);
    }
    var sellers, current, attempted, _ := RetrySearch(query, productType, request.location, request.targetSellers,
                                                      request.maxRetries, find, refine, true);
    var list := SellerList(sellers);
    if list.None? {
      return Err(InternalError);
    }
    var message := if list.value != [] then FoundMessage(|list.value|) else NoSellersMessage;
    return Ok(SearchResponse(true, true, Some(productType), Some(query), Some(current), attempted, list.value, message));
  }

  // ---------------------------------------------------------------------
  // `/search/batch`
  // ---------------------------------------------------------------------

  datatype BatchResponse = BatchResponse(totalIssues: nat, processed: nat, results: seq<Issue>)

  /** `issue.get('item', '')`. */
  function ItemOf(issue: Issue): string
  {
    if issue.item.Some? then issue.item.value else ""
  }

  /**
   * The batch loop's work on one issue: the issue as it ends up and whether
   * it counts as processed, or 500 when a seller URL has no name.
   */
  function ServerIssueUpdate(issue: Issue, location: string, target: int, maxRetries: int,
                             extract: Extractor, find: Finder, refine: Refiner): (r: Result<(Issue, bool), int>)
    ensures r.Err? ==> r.error == InternalError
    // skipped issues pass through unchanged and do not count
    ensures RecommendationOf(issue) == [] || HasWebsiteInfo(issue) ==> r == Ok((issue, false))
    ensures r.Ok? && !r.value.1 ==> r.value.0 == issue
    // a processed issue gets non-empty name and link lists of equal length, the rest kept
    ensures r.Ok? && r.value.1 ==>
      var (updated, _) := r.value;
      && RecommendationOf(issue) != [] && !HasWebsiteInfo(issue)
      && updated.item == issue.item && updated.recommendation == issue.recommendation
      && HasWebsiteInfo(updated)
      && |updated.websiteNames.value| == |updated.websiteLinks.value| > 0
    // 'Search query used' is written only when the final query differs from the original
    ensures r.Ok? && r.value.0.searchQueryUsed != issue.searchQueryUsed ==>
      r.value.0.searchQueryUsed.Some? && r.value.0.searchQueryUsed.value != extract(ItemOf(issue), RecommendationOf(issue)).1
    // an issue to search is processed exactly when the retry loop found sellers that all have names,
    // and answers 500 exactly when it found sellers and one of them has none
    ensures RecommendationOf(issue) != [] && !HasWebsiteInfo(issue) ==>
      var (productType, query) := extract(ItemOf(issue), RecommendationOf(issue));
      var rs := Retry(productType, location, target, maxRetries, find, refine, false, 0, InitialRetry(query));
      && ((r.Ok? && r.value.1) <==> query != [] && productType != [] && rs.sellers != [] && SellerList(rs.sellers).Some?)
      && (r.Err? <==> query != [] && productType != [] && rs.sellers != [] && SellerList(rs.sellers).None?)
      // 'Search query used' becomes the final query exactly when that differs from the original
      && (r.Ok? && r.value.1 ==>
            r.value.0.searchQueryUsed == if rs.current != query then Some(rs.current) else issue.searchQueryUsed)
  {
    var recommendation := RecommendationOf(issue);
    if recommendation == [] || HasWebsiteInfo(issue) then Ok((issue, false))
    else
      var (productType, query) := extract(ItemOf(issue), recommendation);
      if query == [] || productType == [] then Ok((issue, false))
      else
        var rs := Retry(productType, location, target, maxRetries, find, refine, false, 0, InitialRetry(query));
        if rs.sellers == [] then Ok((issue, false))
        else
          match SellerList(rs.sellers)
          case None => Err(InternalError)
          case Some(list) =>
            var names := seq(|list|, k requires 0 <= k < |list| => list[k].websiteName);
            var links := seq(|list|, k requires 0 <= k < |list| => list[k].websiteLink);
            var updated := issue.(websiteNames := Some(names), websiteLinks := Some(links));
            Ok((if rs.current != query then updated.(searchQueryUsed := Some(rs.current)) else updated, true))
  }

  /** The name and link lists follow the sellers of the final query, in order. */
  lemma ServerIssueUpdateSellers(issue: Issue, location: string, target: int, maxRetries: int,
                                 extract: Extractor, find: Finder, refine: Refiner)
    requires maxRetries >= 1
    requires var r := ServerIssueUpdate(issue, location, target, maxRetries, extract, find, refine);
      r.Ok? && r.value.1
    ensures var (updated, _) := ServerIssueUpdate(issue, location, target, maxRetries, extract, find, refine).value;
      var (productType, query) := extract(ItemOf(issue), RecommendationOf(issue));
      var rs := Retry(productType, location, target, maxRetries, find, refine, false, 0, InitialRetry(query));
      && rs.searches >= 1 && rs.sellers == find(rs.current, productType, location, target, rs.searches - 1)
      && |updated.websiteLinks.value| == |rs.sellers|
      && forall k :: 0 <= k < |rs.sellers| ==>
           updated.websiteLinks.value[k] == rs.sellers[k].url
           && Some(updated.websiteNames.value[k]) == WebsiteName(rs.sellers[k].url)
  {
    var (productType, query) := extract(ItemOf(issue), RecommendationOf(issue));
    RetrySearches(productType, location, target, maxRetries, find, refine, false, 0, InitialRetry(query));
  }

  /** How many issues of `issues` the batch loop counts as processed. */
  function ProcessedCount(issues: seq<Issue>, location: string, target: int, maxRetries: int,
                          extract: Extractor, find: Finder, refine: Refiner): (n: nat)
    ensures n <= |issues|
  {
    if issues == [] then 0
    else
      var r := ServerIssueUpdate(issues[|issues| - 1], location, target, maxRetries, extract, find, refine);
      ProcessedCount(issues[..|issues| - 1], location, target, maxRetries, extract, find, refine)
      + (if r.Ok? && r.value.1 then 1 else 0)
  }

  lemma ProcessedCountSnoc(issues: seq<Issue>, issue: Issue, location: string, target: int, maxRetries: int,
                           extract: Extractor, find: Finder, refine: Refiner)
    ensures var r := ServerIssueUpdate(issue, location, target, maxRetries, extract, find, refine);
      ProcessedCount(issues + [issue], location, target, maxRetries, extract, find, refine)
      == ProcessedCount(issues, location, target, maxRetries, extract, find, refine) + (if r.Ok? && r.value.1 then 1 else 0)
  {
    assert (issues + [issue])[..|issues|] == issues;
  }

  /** The loop body for one issue. */
  method ProcessServerIssue(issue: Issue, location: string, target: int, maxRetries: int,
                            extract: Extractor, find: Finder, refine: Refiner)
    returns (r: Result<(Issue, bool), int>)
    ensures r == ServerIssueUpdate(issue, location, target, maxRetries, extract, find, refine)
  {
    var recommendation := RecommendationOf(issue);
    if recommendation == [] {
      return Ok((issue, false));
    }
    if HasWebsiteInfo(issue) {
      return Ok((issue, false));
    }
    var (productType, query) := extract(ItemOf(issue), recommendation);
    if query == [] || productType == [] {
      return Ok((issue, false));
    }
    var sellers, current, _, _ := RetrySearch(query, productType, location, target, maxRetries, find, refine, false);
    if sellers == [] {
      return Ok((issue, false));
    }
    var list := SellerList(sellers);
    if list.None? {
      return Err(InternalError);
    }
    var names := seq(|list.value|, k requires 0 <= k < |list.value| => list.value[k].websiteName);
    var links := seq(|list.value|, k requires 0 <= k < |list.value| => list.value[k].websiteLink);
    var updated := issue.(websiteNames := Some(names), websiteLinks := Some(links));
    if current != query {
      updated := updated.(searchQueryUsed := Some(current));
    }
    return Ok((updated, true));
  }

  /** `issue` is what the loop body makes of `before`. */
  ghost predicate ServedAs(before: Issue, after: Issue, location: string, target: int, maxRetries: int,
                           extract: Extractor, find: Finder, refine: Refiner)
  {
    var r := ServerIssueUpdate(before, location, target, maxRetries, extract, find, refine);
    r.Ok? && r.value.0 == after
  }

  /**
   * `batch_search_products`: the issues are updated in place, in order,
   * and returned, one result per issue, with the number that received
   * sellers; a 500 at issue `stop` leaves the issues after it as they were.
   */
  method BatchSearchProducts(issues: array<Issue>, location: string, target: int, maxRetries: int,
                             extract: Extractor, find: Finder, refine: Refiner)
    returns (r: Result<BatchResponse, int>, ghost stop: nat)
    modifies issues
    ensures !WithinBounds(target, maxRetries) ==> r == Err(ValidationFailed) && issues[..] == old(issues[..])
    ensures stop <= issues.Length
    ensures r.Ok? <==> WithinBounds(target, maxRetries) && stop == issues.Length
    ensures r.Ok? ==> r.value == BatchResponse(issues.Length,
      ProcessedCount(old(issues[..]), location, target, maxRetries, extract, find, refine), issues[..])
    ensures WithinBounds(target, maxRetries) ==> forall i :: 0 <= i < stop ==>
      ServedAs(old(issues[..])[i], issues[i], location, target, maxRetries, extract, find, refine)
    ensures WithinBounds(target, maxRetries) && stop < issues.Length ==>
      (r == Err(InternalError)
       && ServerIssueUpdate(old(issues[..])[stop], location, target, maxRetries, extract, find, refine).Err?)
    ensures forall i :: stop <= i < issues.Length ==> issues[i] == old(issues[..])[i]
  {
    if !WithinBounds(target, maxRetries) {
      return Err(ValidationFailed), 0;
    }
    ghost var original := issues[..];
    var results: seq<Issue> := [];
    var processed: nat := 0;
    var i := 0;
    while i < issues.Length
      invariant 0 <= i <= issues.Length
      invariant results == issues[..i]
      invariant processed == ProcessedCount(original[..i], location, target, maxRetries, extract, find, refine)
      invariant forall j :: 0 <= j < i ==>
        ServedAs(original[j], issues[j], location, target, maxRetries, extract, find, refine)
      invariant forall j :: i <= j < issues.Length ==> issues[j] == original[j]
    {
      var outcome := ProcessServerIssue(issues[i], location, target, maxRetries, extract, find, refine);
      if outcome.Err? {
        return Err(InternalError), i;
      }
      ProcessedCountSnoc(original[..i], original[i], location, target, maxRetries, extract, find, refine);
      assert original[..i + 1] == original[..i] + [original[i]];
      ghost var before := issues[..];
      issues[i] := outcome.value.0;
      forall j | 0 <= j < i + 1
        ensures ServedAs(original[j], issues[j], location, target, maxRetries, extract, find, refine)
      {
        if j < i {
          assert issues[j] == before[j];
        }
      }
      results := results + [issues[i]];
      if outcome.value.1 {
        processed := processed + 1;
      }
      i := i + 1;
    }
    assert original[..issues.Length] == original;
    return Ok(BatchResponse(issues.Length, processed, results)), issues.Length;
  }
}
