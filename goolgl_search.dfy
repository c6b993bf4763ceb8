/**
 * The batched seller finder: up to three DuckDuckGo searches of twenty
 * results for the same query, each batch verifying only the URLs no
 * earlier batch examined, until the target number of sellers is reached.
 *
 * DuckDuckGo is a function of (query, requested result count, batch
 * number), since the same query may give different results on each call;
 * page verdicts come from a function of the URL (for a given description).
 */
module GoolglSearch {
  import opened Common
  import opened WebpageAnalysis
  import opened DuckDuckGoSearch

  /** Results requested per search. */
  const BatchSize := 20
  /** Searches at most. */
  const MaxAttempts := 3

  /** The distinct URLs of a list. */
  function Elements(urls: seq<string>): set<string>
  {
    if urls == [] then {} else Elements(urls[..|urls| - 1]) + {urls[|urls| - 1]}
  }

  /** A URL is among the elements exactly when the list holds it. */
  lemma {:induction false} ElementsSpec(urls: seq<string>)
    ensures forall u :: u in Elements(urls) <==> u in urls
    decreases |urls|
  {
    if urls != [] {
      var init := urls[..|urls| - 1];
      ElementsSpec(init);
      assert urls == init + [urls[|urls| - 1]];
    }
  }

  /** `[url for url in results if url not in all_checked_urls]`. */
  function NewUrls(results: seq<string>, checked: set<string>): (r: seq<string>)
    ensures |r| <= |results|
  {
    if results == [] then []
    else (if results[0] in checked then [] else [results[0]]) + NewUrls(results[1..], checked)
  }

  /** The new URLs are exactly the results that were not checked before. */
  lemma {:induction false} NewUrlsSpec(results: seq<string>, checked: set<string>)
    ensures forall k :: 0 <= k < |NewUrls(results, checked)| ==>
      NewUrls(results, checked)[k] in results && NewUrls(results, checked)[k] !in checked
    ensures forall j :: 0 <= j < |results| && results[j] !in checked ==> results[j] in NewUrls(results, checked)
    decreases |results|
  {
    if results != [] {
      NewUrlsSpec(results[1..], checked);
      assert forall j :: 1 <= j < |results| ==> results[j] == results[1..][j - 1];
    }
  }

  /** The URLs of all batches, in the order they were examined. */
  function Flatten(batches: seq<seq<string>>): seq<string>
  {
    if batches == [] then [] else Flatten(batches[..|batches| - 1]) + batches[|batches| - 1]
  }

  /**
   * The state between two batches: the sellers found, `all_checked_urls`,
   * and the URLs each batch examined so far.
   */
  datatype Progress = Progress(verified: seq<CheckedUrl>, checked: set<string>, batches: seq<seq<string>>)

  /**
   * Batch `attempt` (numbered from 1), or None when the loop stops before it:
   * once the target is reached or three batches ran, and when the search
   * gives no URL or no URL that was not checked before. Otherwise the batch
   * verifies the new URLs in order until the target is reached.
   */
  function NextBatch(query: string, target: int, search: (string, int, nat) -> Option<seq<SearchHit>>,
                     verdict: string -> Verdict, attempt: nat, p: Progress): (r: Option<Progress>)
    ensures r.Some? ==> attempt <= MaxAttempts && |p.verified| < target
  {
    if attempt > MaxAttempts || |p.verified| >= target then None
    else
      var results := SearchUrls(search(query, BatchSize, attempt));
      var newUrls := NewUrls(results, p.checked);
      if results == [] || newUrls == [] then None
      else
        var examined := newUrls[..StopIndex(newUrls, target - |p.verified|, verdict, 0)];
        Some(Progress(p.verified + Verified(examined, verdict), p.checked + Elements(examined), p.batches + [examined]))
  }

  /** The batch loop from batch `attempt` on. */
  function SearchBatches(query: string, target: int, search: (string, int, nat) -> Option<seq<SearchHit>>,
                         verdict: string -> Verdict, attempt: nat, p: Progress): Progress
    decreases MaxAttempts + 1 - attempt
  {
    match NextBatch(query, target, search, verdict, attempt, p)
    case None => p
    case Some(q) => SearchBatches(query, target, search, verdict, attempt + 1, q)
  }

  /** `find_verified_furniture_sellers` of goolglsearch.py as a value: the sellers, the number of URLs checked. */
  function BatchedSellers(description: string, location: string, target: int,
                          search: (string, int, nat) -> Option<seq<SearchHit>>, verdict: string -> Verdict): (seq<CheckedUrl>, nat)
  {
    var p := SearchBatches(SellerQuery(description, location), target, search, verdict, 1, Progress([], {}, []));
    (p.verified, |p.checked|)
  }

  // ---------------------------------------------------------------------
  // What the batch loop keeps
  // ---------------------------------------------------------------------

  /** The sellers are the verified URLs among all examined ones, and the checked set is exactly those URLs. */
  predicate Accounted(p: Progress, verdict: string -> Verdict)
  {
    p.verified == Verified(Flatten(p.batches), verdict) && p.checked == Elements(Flatten(p.batches))
  }

  /** Batch `b` examined only URLs that its own search returned. */
  predicate FromSearch(query: string, search: (string, int, nat) -> Option<seq<SearchHit>>, batches: seq<seq<string>>)
  {
    forall b, k :: 0 <= b < |batches| && 0 <= k < |batches[b]| ==>
      batches[b][k] in SearchUrls(search(query, BatchSize, b + 1))
  }

  /** No batch re-examines a URL that an earlier batch examined. */
  predicate NoRecheck(batches: seq<seq<string>>)
  {
    forall b, k :: 0 <= b < |batches| && 0 <= k < |batches[b]| ==>
      batches[b][k] !in Elements(Flatten(batches[..b]))
  }

  /** Before each URL examined, fewer than `target` sellers had been found. */
  predicate BelowTargetBefore(batches: seq<seq<string>>, target: int, verdict: string -> Verdict)
  {
    forall j :: 0 <= j < |Flatten(batches)| ==> |Verified(Flatten(batches)[..j], verdict)| < target
  }

  predicate Kept(query: string, target: int, search: (string, int, nat) -> Option<seq<SearchHit>>,
                 verdict: string -> Verdict, p: Progress)
  {
    Accounted(p, verdict) && FromSearch(query, search, p.batches) && NoRecheck(p.batches)
    && BelowTargetBefore(p.batches, target, verdict)
  }

  lemma {:induction false} VerifiedConcat(a: seq<string>, b: seq<string>, verdict: string -> Verdict)
    ensures Verified(a + b, verdict) == Verified(a, verdict) + Verified(b, verdict)
    decreases |b|
  {
    if b == [] {
      assert a + b == a;
    } else {
      var init := b[..|b| - 1];
      var u := b[|b| - 1];
      assert a + b == (a + init) + [u];
      assert b == init + [u];
      VerifiedConcat(a, init, verdict);
      VerifiedSnoc(a + init, u, verdict);
      VerifiedSnoc(init, u, verdict);
    }
  }

  lemma {:induction false} ElementsConcat(a: seq<string>, b: seq<string>)
    ensures Elements(a + b) == Elements(a) + Elements(b)
    decreases |b|
  {
    if b == [] {
      assert a + b == a;
    } else {
      var init := b[..|b| - 1];
      assert (a + b)[..|a + b| - 1] == a + init;
      ElementsConcat(a, init);
    }
  }

  lemma FlattenSnoc(batches: seq<seq<string>>, last: seq<string>)
    ensures Flatten(batches + [last]) == Flatten(batches) + last
  {
    assert (batches + [last])[..|batches|] == batches;
  }

  /** The bookkeeping part of one more batch. */
  lemma AccountedStep(p: Progress, examined: seq<string>, verdict: string -> Verdict)
    requires Accounted(p, verdict)
    ensures Accounted(Progress(p.verified + Verified(examined, verdict), p.checked + Elements(examined),
                               p.batches + [examined]), verdict)
  {
    FlattenSnoc(p.batches, examined);
    VerifiedConcat(Flatten(p.batches), examined, verdict);
    ElementsConcat(Flatten(p.batches), examined);
  }

  lemma FromSearchStep(query: string, search: (string, int, nat) -> Option<seq<SearchHit>>,
                       batches: seq<seq<string>>, examined: seq<string>, results: seq<string>)
    requires FromSearch(query, search, batches)
    requires results == SearchUrls(search(query, BatchSize, |batches| + 1))
    requires forall k :: 0 <= k < |examined| ==> examined[k] in results
    ensures FromSearch(query, search, batches + [examined])
  {
    var next := batches + [examined];
    forall b, k | 0 <= b < |next| && 0 <= k < |next[b]|
      ensures next[b][k] in SearchUrls(search(query, BatchSize, b + 1))
    {
      if b < |batches| {
        assert next[b] == batches[b];
      }
    }
  }

  lemma NoRecheckStep(batches: seq<seq<string>>, examined: seq<string>)
    requires NoRecheck(batches)
    requires forall k :: 0 <= k < |examined| ==> examined[k] !in Elements(Flatten(batches))
    ensures NoRecheck(batches + [examined])
  {
    var next := batches + [examined];
    forall b, k | 0 <= b < |next| && 0 <= k < |next[b]|
      ensures next[b][k] !in Elements(Flatten(next[..b]))
    {
      if b < |batches| {
        assert next[..b] == batches[..b];
        assert next[b] == batches[b];
      } else {
        assert next[..b] == batches;
      }
    }
  }

  lemma BelowTargetStep(batches: seq<seq<string>>, examined: seq<string>, target: int, verdict: string -> Verdict)
    requires BelowTargetBefore(batches, target, verdict)
    requires |Verified(Flatten(batches), verdict)| < target
    requires forall j :: 0 <= j < |examined| ==>
      |Verified(examined[..j], verdict)| < target - |Verified(Flatten(batches), verdict)|
    ensures BelowTargetBefore(batches + [examined], target, verdict)
  {
    var before := Flatten(batches);
    FlattenSnoc(batches, examined);
    var all := before + examined;
    forall j | 0 <= j < |all|
      ensures |Verified(all[..j], verdict)| < target
    {
      if j < |before| {
        assert all[..j] == before[..j];
      } else {
        var m := j - |before|;
        assert all[..j] == before + examined[..m];
        VerifiedConcat(before, examined[..m], verdict);
      }
    }
  }

  /** A batch of new URLs from its own search, each examined below the target, keeps every property of the loop. */
  lemma BatchKept(query: string, target: int, search: (string, int, nat) -> Option<seq<SearchHit>>,
                  verdict: string -> Verdict, p: Progress, examined: seq<string>)
    requires Kept(query, target, search, verdict, p)
    requires |p.verified| < target
    requires forall k :: 0 <= k < |examined| ==>
      examined[k] in SearchUrls(search(query, BatchSize, |p.batches| + 1)) && examined[k] !in p.checked
    requires forall j :: 0 <= j < |examined| ==> |Verified(examined[..j], verdict)| < target - |p.verified|
    ensures Kept(query, target, search, verdict,
                 Progress(p.verified + Verified(examined, verdict), p.checked + Elements(examined), p.batches + [examined]))
  {
    AccountedStep(p, examined, verdict);
    FromSearchStep(query, search, p.batches, examined, SearchUrls(search(query, BatchSize, |p.batches| + 1)));
    NoRecheckStep(p.batches, examined);
    BelowTargetStep(p.batches, examined, target, verdict);
  }

  /**
   * One batch keeps every property of the loop; when there is no next batch
   * although the target is not reached and batches remain, the search gave
   * no URL that was not checked already.
   */
  lemma NextBatchKept(query: string, target: int, search: (string, int, nat) -> Option<seq<SearchHit>>,
                      verdict: string -> Verdict, attempt: nat, p: Progress)
    requires |p.batches| + 1 == attempt
    requires Kept(query, target, search, verdict, p)
    ensures var q := NextBatch(query, target, search, verdict, attempt, p);
      q.Some? ==> Kept(query, target, search, verdict, q.value) && |q.value.batches| == attempt
    ensures NextBatch(query, target, search, verdict, attempt, p).None? && attempt <= MaxAttempts && |p.verified| < target
      ==> NewUrls(SearchUrls(search(query, BatchSize, attempt)), p.checked) == []
  {
    if attempt <= MaxAttempts && |p.verified| < target {
      var results := SearchUrls(search(query, BatchSize, attempt));
      var newUrls := NewUrls(results, p.checked);
      if results != [] && newUrls != [] {
        var n := StopIndex(newUrls, target - |p.verified|, verdict, 0);
        var examined := newUrls[..n];
        NewUrlsSpec(results, p.checked);
        forall j | 0 <= j < |examined|
          ensures |Verified(examined[..j], verdict)| < target - |p.verified|
        {
          assert examined[..j] == newUrls[..j];
        }
        BatchKept(query, target, search, verdict, p, examined);
        NextBatchSome(query, target, search, verdict, attempt, p);
      }
    }
  }

  /** The batch that runs when the search gives new URLs. */
  lemma NextBatchSome(query: string, target: int, search: (string, int, nat) -> Option<seq<SearchHit>>,
                      verdict: string -> Verdict, attempt: nat, p: Progress)
    requires attempt <= MaxAttempts && |p.verified| < target
    requires NewUrls(SearchUrls(search(query, BatchSize, attempt)), p.checked) != []
    ensures var newUrls := NewUrls(SearchUrls(search(query, BatchSize, attempt)), p.checked);
      var examined := newUrls[..StopIndex(newUrls, target - |p.verified|, verdict, 0)];
      NextBatch(query, target, search, verdict, attempt, p)
        == Some(Progress(p.verified + Verified(examined, verdict), p.checked + Elements(examined), p.batches + [examined]))
  {
  }

  /** One batch does not take the sellers past the target. */
  lemma NextBatchBound(query: string, target: int, search: (string, int, nat) -> Option<seq<SearchHit>>,
                       verdict: string -> Verdict, attempt: nat, p: Progress)
    requires |p.verified| <= target
    ensures var q := NextBatch(query, target, search, verdict, attempt, p);
      q.Some? ==> |q.value.verified| <= target
  {
    if attempt <= MaxAttempts && |p.verified| < target {
      var results := SearchUrls(search(query, BatchSize, attempt));
      var newUrls := NewUrls(results, p.checked);
      if results != [] && newUrls != [] {
        VerifyUntilTargetBound(newUrls, target - |p.verified|, verdict);
      }
    }
  }

  /**
   * The batch loop keeps its properties to the end, runs at most three
   * batches, and when it ends short of the target before the third batch,
   * the next search would have given no URL that was not checked already.
   */
  lemma {:induction false} SearchBatchesKept(query: string, target: int,
                                             search: (string, int, nat) -> Option<seq<SearchHit>>,
                                             verdict: string -> Verdict, attempt: nat, p: Progress)
    requires 1 <= attempt && |p.batches| == attempt - 1 && attempt <= MaxAttempts + 1
    requires Kept(query, target, search, verdict, p)
    ensures Kept(query, target, search, verdict, SearchBatches(query, target, search, verdict, attempt, p))
    ensures |SearchBatches(query, target, search, verdict, attempt, p).batches| <= MaxAttempts
    ensures var r := SearchBatches(query, target, search, verdict, attempt, p);
      |r.verified| < target && |r.batches| < MaxAttempts ==>
        NewUrls(SearchUrls(search(query, BatchSize, |r.batches| + 1)), r.checked) == []
    decreases MaxAttempts + 1 - attempt
  {
    NextBatchKept(query, target, search, verdict, attempt, p);
    var q := NextBatch(query, target, search, verdict, attempt, p);
    if q.Some? {
      SearchBatchesKept(query, target, search, verdict, attempt + 1, q.value);
    }
  }

  lemma SearchBatchesAdvance(query: string, target: int, search: (string, int, nat) -> Option<seq<SearchHit>>,
                             verdict: string -> Verdict, attempt: nat, p: Progress, q: Progress)
    requires NextBatch(query, target, search, verdict, attempt, p) == Some(q)
    ensures SearchBatches(query, target, search, verdict, attempt, p)
         == SearchBatches(query, target, search, verdict, attempt + 1, q)
  {
  }

  lemma SearchBatchesDone(query: string, target: int, search: (string, int, nat) -> Option<seq<SearchHit>>,
                          verdict: string -> Verdict, attempt: nat, p: Progress)
    requires attempt > MaxAttempts || |p.verified| >= target
             || NextBatch(query, target, search, verdict, attempt, p).None?
    ensures SearchBatches(query, target, search, verdict, attempt, p) == p
  {
  }

  /** The sellers never exceed the target. */
  lemma {:induction false} SearchBatchesBound(query: string, target: int,
                                              search: (string, int, nat) -> Option<seq<SearchHit>>,
                                              verdict: string -> Verdict, attempt: nat, p: Progress)
    requires |p.verified| <= target
    ensures |SearchBatches(query, target, search, verdict, attempt, p).verified| <= target
    decreases MaxAttempts + 1 - attempt
  {
    NextBatchBound(query, target, search, verdict, attempt, p);
    var q := NextBatch(query, target, search, verdict, attempt, p);
    if q.Some? {
      SearchBatchesBound(query, target, search, verdict, attempt + 1, q.value);
    }
  }

  /**
   * What `find_verified_furniture_sellers` promises: at most `target`
   * sellers, each a URL that one of at most three searches returned and
   * whose page was judged to sell, found by examining URLs in order while
   * the target was not yet reached; no URL is examined in two batches, and
   * the count is the number of distinct URLs examined.
   */
  lemma BatchedSellersSpec(description: string, location: string, target: int,
                           search: (string, int, nat) -> Option<seq<SearchHit>>, verdict: string -> Verdict)
    ensures var query := SellerQuery(description, location);
      var p := SearchBatches(query, target, search, verdict, 1, Progress([], {}, []));
      && BatchedSellers(description, location, target, search, verdict) == (p.verified, |p.checked|)
      && (target >= 0 ==> |p.verified| <= target)
      && |p.batches| <= MaxAttempts
      && Kept(query, target, search, verdict, p)
  {
    var query := SellerQuery(description, location);
    var start := Progress([], {}, []);
    assert Flatten(start.batches) == [];
    SearchBatchesKept(query, target, search, verdict, 1, start);
    if target >= 0 {
      SearchBatchesBound(query, target, search, verdict, 1, start);
    }
  }

  /**
   * Every seller found is a URL in the checked set whose page was judged to
   * sell, with that verdict's reason, and every checked URL judged to sell
   * is among the sellers.
   */
  lemma SellersWereChecked(description: string, location: string, target: int,
                           search: (string, int, nat) -> Option<seq<SearchHit>>, verdict: string -> Verdict)
    ensures var p := SearchBatches(SellerQuery(description, location), target, search, verdict, 1, Progress([], {}, []));
      && (forall k :: 0 <= k < |p.verified| ==>
            p.verified[k].url in p.checked && verdict(p.verified[k].url).selling
            && p.verified[k].reason == verdict(p.verified[k].url).reason)
      && (forall u :: u in p.checked && verdict(u).selling ==>
            exists k :: 0 <= k < |p.verified| && p.verified[k].url == u)
  {
    var p := SearchBatches(SellerQuery(description, location), target, search, verdict, 1, Progress([], {}, []));
    BatchedSellersSpec(description, location, target, search, verdict);
    var all := Flatten(p.batches);
    VerifiedSpec(all, verdict);
    ElementsSpec(all);
    forall u | u in p.checked && verdict(u).selling
      ensures exists k :: 0 <= k < |p.verified| && p.verified[k].url == u
    {
      var j :| 0 <= j < |all| && all[j] == u;
    }
  }

  // ---------------------------------------------------------------------
  // The loops
  // ---------------------------------------------------------------------

  /** Extending the examined prefix by one URL. */
  lemma PrefixStep(urls: seq<string>, i: nat, verdict: string -> Verdict)
    requires i < |urls|
    ensures Verified(urls[..i + 1], verdict)
         == Verified(urls[..i], verdict) + (if verdict(urls[i]).selling then [CheckedUrl(urls[i], verdict(urls[i]).reason)] else [])
    ensures Elements(urls[..i + 1]) == Elements(urls[..i]) + {urls[i]}
  {
    assert urls[..i + 1][..i] == urls[..i];
  }

  /**
   * One batch's inner loop over the new URLs: each is added to the checked
   * set, then verified. The source breaks right after appending the seller
   * that reaches the target; since only an append changes the count, that
   * is the loop guard here.
   */
  method VerifyBatch(newUrls: seq<string>, target: int, verdict: string -> Verdict,
                     verified0: seq<CheckedUrl>, checked0: set<string>)
    returns (verified: seq<CheckedUrl>, checked: set<string>)
    requires |verified0| < target
    ensures verified == verified0 + Verified(newUrls[..StopIndex(newUrls, target - |verified0|, verdict, 0)], verdict)
    ensures checked == checked0 + Elements(newUrls[..StopIndex(newUrls, target - |verified0|, verdict, 0)])
  {
    ghost var t := target - |verified0|;
    verified := verified0;
    checked := checked0;
    var i := 0;
    while i < |newUrls| && |verified| < target
      invariant 0 <= i <= |newUrls|
      invariant verified == verified0 + Verified(newUrls[..i], verdict)
      invariant checked == checked0 + Elements(newUrls[..i])
      invariant StopIndex(newUrls, t, verdict, 0) == StopIndex(newUrls, t, verdict, i)
    {
      var url := newUrls[i];
      PrefixStep(newUrls, i, verdict);
      checked := checked + {url};
      var v := verdict(url);
      if v.selling {
        assert verified + [CheckedUrl(url, v.reason)]
            == verified0 + (Verified(newUrls[..i], verdict) + [CheckedUrl(url, v.reason)]);
        verified := verified + [CheckedUrl(url, v.reason)];
      }
      i := i + 1;
    }
    assert StopIndex(newUrls, t, verdict, i) == i;
  }

  /**
   * One pass of the batch loop once the target check passed: the search,
   * the filter against the checked URLs, and the inner loop. `more` is
   * false when the loop breaks for want of results or of new URLs.
   */
  method SearchBatch(query: string, target: int, search: (string, int, nat) -> Option<seq<SearchHit>>,
                     verdict: string -> Verdict, attempt: nat,
                     verified0: seq<CheckedUrl>, checked0: set<string>, ghost batches0: seq<seq<string>>)
    returns (more: bool, verified: seq<CheckedUrl>, checked: set<string>, ghost batches: seq<seq<string>>)
    requires attempt <= MaxAttempts && |verified0| < target
    ensures NextBatch(query, target, search, verdict, attempt, Progress(verified0, checked0, batches0))
         == if more then Some(Progress(verified, checked, batches)) else None
    ensures !more ==> verified == verified0 && checked == checked0 && batches == batches0
  {
    var results := SearchUrls(search(query, BatchSize, attempt));
    if results == [] {
      return false, verified0, checked0, batches0;
    }
    var newUrls := NewUrls(results, checked0);
    if newUrls == [] {
      return false, verified0, checked0, batches0;
    }
    batches := batches0 + [newUrls[..StopIndex(newUrls, target - |verified0|, verdict, 0)]];
    verified, checked := VerifyBatch(newUrls, target, verdict, verified0, checked0);
    more := true;
  }

  /**
   * `find_verified_furniture_sellers` of goolglsearch.py: the sellers found
   * and `len(all_checked_urls)`.
   */
  method FindVerifiedSellersBatched(description: string, location: string, target: int,
                                    search: (string, int, nat) -> Option<seq<SearchHit>>, verdict: string -> Verdict)
    returns (verified: seq<CheckedUrl>, checkedCount: nat)
    ensures (verified, checkedCount) == BatchedSellers(description, location, target, search, verdict)
    ensures target >= 0 ==> |verified| <= target
  {
    ghost var start := Progress([], {}, []);
    verified := [];
    var checked: set<string> := {};
    ghost var batches: seq<seq<string>> := [];
    var query := SellerQuery(description, location);
    var attempt := 1;
    while attempt <= MaxAttempts
      invariant 1 <= attempt <= MaxAttempts + 1
      invariant SearchBatches(query, target, search, verdict, 1, start)
             == SearchBatches(query, target, search, verdict, attempt, Progress(verified, checked, batches))
    {
      if |verified| >= target {
        break;
      }
      ghost var p := Progress(verified, checked, batches);
      var more;
      more, verified, checked, batches := SearchBatch(query, target, search, verdict, attempt, verified, checked, batches);
      if !more {
        break;
      }
      assert SearchBatches(query, target, search, verdict, 1, start)
          == SearchBatches(query, target, search, verdict, attempt + 1, Progress(verified, checked, batches)) by {
        SearchBatchesAdvance(query, target, search, verdict, attempt, p, Progress(verified, checked, batches));
      }
      attempt := attempt + 1;
    }
    SearchBatchesDone(query, target, search, verdict, attempt, Progress(verified, checked, batches));
    if target >= 0 {
      SearchBatchesBound(query, target, search, verdict, 1, start);
    }
    checkedCount := |checked|;
  }
}
