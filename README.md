# Interior-design assistant: service coordinator and furniture-seller search, in Dafny

This project models two parts of an interior-design assistant.

- **The coordinator's configuration and service supervisor** (`coordinator/config.py`, `coordinator/service_manager.py`):
  - settings are read from the environment, with their defaults;
  - `ServiceConfig.validate()` checks the required API keys;
  - `SubmoduleService` starts a worker process, waits up to sixty health probes for it to become ready, stops it, restarts it and probes it;
  - `ServiceManager` registers the RAG-Langchain service and applies those operations to every registered service.
- **The furniture-seller search** (`DuckDuckGo_lens/`):
  - the web-page analyser fetches a page, cleans its text, and decides whether the page is a shop selling the furniture, either from an LLM's "YES" answer or from a keyword and e-commerce heuristic;
  - two seller finders turn search results into verified sellers:
    - the single-search finder with its issue-file updater;
    - the batched finder, with up to three searches of twenty results;
  - the product search service's `/search` and `/search/batch` endpoints, including their query-refining retry loop.

The outside world becomes parameters of the operations that use it:

| Source call | Modelled as |
|---|---|
| filesystem existence checks | a set of existing paths |
| `subprocess.Popen` | the handle it returns, or None when it raises |
| health requests | a function from the probe number to a response code or a request exception |
| `terminate`/`wait`/`kill` | the way the stop ended |
| DuckDuckGo | a function from the query (and, in the batched finder, the batch number) to the raw results, or None when the search raised |
| page downloads | a status code and the extracted text |
| LLM completions | a function of what the prompt is built from |
| the product service's imported collaborators | functions of their arguments and the attempt number |

Where the code changes state in place, the model does the same:

- `SubmoduleService` and `ServiceManager` are classes whose methods update the status and process fields;
- the issue lists of both updaters are arrays rewritten entry by entry;
- the loops of the search code are `while` loops.

Each such method is proved equal to a specification function, and the properties are proved about those functions. Two examples:

- `Services.StartEffect` states what `start()` promises.
- `ProductSearchServer.RetryEnd` states how the retry loop can end.

Some properties the model proves about the code as it is written:

- When `stop()` fails on a running service, `restart()` reports success and changes nothing.
- A start that timed out keeps its child's handle, and the next start overwrites that handle.
- The `/search` response's list of attempted queries never repeats a query.
- The batched finder never re-examines a URL that an earlier batch checked, and never keeps more sellers than its target.
- Cleaning a page's text is idempotent.
- The keyword heuristic ignores letter case, and a page it accepts stays accepted when text is added to it.
- An integer printed and read back with `int()` is the same integer.

## Model

| member | source | states |
|---|---|---|
| Common.SlicePrefix | DuckDuckGo_lens/webpage_analyzer.py:115 | Python's `xs[:n]`: a prefix of the list, of length `min(n, len)` for `n >= 0`, or `len + n` floored at 0 for negative `n` |
| Strings.Strip | DuckDuckGo_lens/webpage_analyzer.py:110 | `strip()` gives a slice of the text that neither starts nor ends with whitespace, and only leading whitespace is dropped in front |
| Strings.StripIdempotent | DuckDuckGo_lens/DuckDuckgo_search.py:69 | stripping a stripped text changes nothing |
| Strings.SplitOn | DuckDuckGo_lens/product_search_server.py:163 | `split('/')` gives at least one piece, no piece contains the separator, and none is longer than the text |
| Strings.SplitOnJoin | DuckDuckGo_lens/product_search_server.py:163 | joining the pieces of `split(sep)` with `sep` gives the text back |
| Strings.SplitOnDoubleSpace | DuckDuckGo_lens/webpage_analyzer.py:111 | `split("  ")` gives at least one piece; no piece holds a double space; every character of a piece comes from the text; the first piece is a prefix of the text |
| Strings.SplitOnDoubleSpaceJoin | DuckDuckGo_lens/webpage_analyzer.py:111 | joining the pieces of `split("  ")` with a double space gives the text back |
| Strings.SplitOnDoubleSpaceWords | DuckDuckGo_lens/webpage_analyzer.py:111 | the words of the pieces of `split("  ")`, piece after piece, are the words of the text |
| Strings.NoDoubleSpaceUnsplit | DuckDuckGo_lens/webpage_analyzer.py:111 | a text without a double space is its own single piece |
| Strings.SplitLines | DuckDuckGo_lens/webpage_analyzer.py:110 | no line produced by `splitlines()` holds a line-break character; there are no lines exactly when the text is empty |
| Strings.SplitLinesWords | DuckDuckGo_lens/webpage_analyzer.py:110 | the words of the lines, line after line, are the words of the text, since every line break is whitespace |
| Strings.SplitLinesJoin | DuckDuckGo_lens/webpage_analyzer.py:110 | for text whose only line break is '\n' and that does not end with one, joining the lines with '\n' gives the text back |
| Strings.Words | DuckDuckGo_lens/webpage_analyzer.py:179 | `split()` gives non-empty words, none containing whitespace |
| Strings.WordsSplitAtSpace | DuckDuckGo_lens/webpage_analyzer.py:179 | a whitespace character separates words: the words of `a + c + b`, for whitespace `c`, are the words of `a` followed by those of `b` |
| Strings.WordsJoinSpace | DuckDuckGo_lens/webpage_analyzer.py:112 | the words of `a + " " + b` are the words of `a` followed by those of `b` |
| Strings.WordsOfWord | DuckDuckGo_lens/webpage_analyzer.py:179 | a non-empty text without whitespace is exactly one word |
| Strings.WordsOfStrip | DuckDuckGo_lens/webpage_analyzer.py:110-111 | stripping a text does not change its words |
| Strings.RemoveAll | DuckDuckGo_lens/product_search_server.py:163 | `replace('www.', '')` never lengthens the text, keeps only its characters, and leaves a text without the pattern unchanged |
| Strings.RemoveAllLeading | DuckDuckGo_lens/product_search_server.py:163 | an occurrence of the pattern at the front is removed, and removal goes on in what follows |
| Strings.RemoveAllKeeps | DuckDuckGo_lens/product_search_server.py:163 | a character that does not start an occurrence of the pattern is kept, and removal goes on after it |
| Strings.RemoveWwwPrefix | DuckDuckGo_lens/DuckDuckgo_search.py:79 | `("www." + h).replace("www.", "")` is `h` when `h` holds no "www." |
| Strings.IntToString | coordinator/config.py:65-66 | `str(n)` is non-empty and starts with '-' exactly when `n` is negative |
| Config.ParseInt | coordinator/config.py:30-32 | `int()` accepts a text only if it holds a decimal digit |
| Config.ParseIntOfIntToString | coordinator/config.py:30-32 | every integer printed with `str` is read back to itself by `int()` |
| Config.LoadSettings | coordinator/config.py:24-44 | the settings fail to load exactly when one of the three port variables (or its default) is not an integer; each of the three keys, three hosts and the log level is its variable when set, else its default ("", "127.0.0.1", "0.0.0.0", "INFO"); each port is what `int()` reads from its variable, else from "8001", "8002" or "8000" |
| Config.UnsetEnvironmentDefaults | coordinator/config.py:24-44 | with nothing set: empty keys, ports 8001/8002/8000, hosts 127.0.0.1, 127.0.0.1 and 0.0.0.0, log level INFO |
| Config.HttpUrlDecodes | coordinator/config.py:65-66 | a service URL can be read back: for a host without ':', what follows "http://" splits at ':' into the host and the printed port, and `int()` reads that port piece back to the port |
| Config.HttpUrlInjective | coordinator/config.py:65-66 | for hosts without ':', two services have the same URL exactly when they have the same host and port |
| Config.ServiceUrlsDecode | coordinator/config.py:62-67 | `get_service_urls()` has exactly the keys "rag" and "image_gen"; each URL reads back as its own service's host and printed port; the two URLs coincide exactly when host and port do |
| Config.Validate | coordinator/config.py:46-59 | validation succeeds exactly when both required keys are non-empty; otherwise it fails with "Configuration errors: " and the missing keys' messages, OPENAI first, joined by ", " |
| Services.StatusAfterProbe | coordinator/service_manager.py:161-177 | after a probe the status is RUNNING exactly when the response was 200; another code gives UNHEALTHY; a request exception turns RUNNING into UNHEALTHY and leaves any other status alone |
| Services.FirstHealthyProbe | coordinator/service_manager.py:109-114 | finds the first healthy probe among the sixty, with every earlier probe unhealthy; None means all sixty were unhealthy |
| Services.StartEffect | coordinator/service_manager.py:82-136 | an already running service succeeds at once and is untouched; a missing interpreter or script, or a `Popen` that raises, gives false and ERROR with nothing spawned or probed; after a spawn at least one probe is made and the start succeeds exactly when there is a healthy probe among the sixty; the result is true exactly when the service ends RUNNING, and false exactly when it ends ERROR; a process is spawned only when the interpreter and the script exist; success after a wait means the last probe was the first healthy one; a timeout means sixty unhealthy probes with the spawned handle kept |
| Services.StartSucceedsIffSomeProbeHealthy | coordinator/service_manager.py:99-131 | once a process is spawned, `start()` returns true exactly when one of the sixty readiness probes answers 200 |
| Services.StopEffect | coordinator/service_manager.py:138-159 | the handle is never cleared; without a handle the stop succeeds and the status is untouched; a clean exit or a kill after the timeout ends STOPPED; any other failure returns false and leaves the state unchanged |
| Services.RestartAfterFailedStopIsNoop | coordinator/service_manager.py:179-184 | when `stop()` fails on a running service, `restart()` returns true and starts nothing |
| Services.RetryAfterTimeoutDropsHandle | coordinator/service_manager.py:99-131 | a start that timed out leaves ERROR with its child's handle; a later start replaces that handle |
| Services.SubmoduleService.constructor | coordinator/service_manager.py:37-53 | stores the fields; the venv defaults to `path/venv`; a new service is STOPPED and has no process |
| Services.SubmoduleService.HealthUrlInjective | coordinator/service_manager.py:55-63 | two services have the same health URL exactly when they have the same URL, and, for hosts without ':', exactly when they have the same host and port |
| Services.SubmoduleService.PythonExecutable | coordinator/service_manager.py:65-80 | the interpreter is the Windows one whenever it exists, else the Unix one; it is always an existing file inside an existing venv; None (FileNotFoundError) exactly when the venv or both interpreters are missing |
| Services.SubmoduleService.CheckHealth | coordinator/service_manager.py:161-177 | returns true exactly for a 200 response; the new status is the one `StatusAfterProbe` gives |
| Services.SubmoduleService.Start | coordinator/service_manager.py:82-136 | the result, the new status and process, and the number of probes are those of `StartEffect` |
| Services.SubmoduleService.Stop | coordinator/service_manager.py:138-159 | the result and the new state are those of `StopEffect` |
| Services.SubmoduleService.Restart | coordinator/service_manager.py:179-184 | the outcome is that of `StartEffect` applied to the state `StopEffect` leaves |
| Services.ServiceManager.constructor | coordinator/service_manager.py:190-205 | registers exactly one service, "rag": RAG-Langchain, running `api_server.py` from the RAG-Langchain directory with its `.venv`, at the configured RAG URL, STOPPED with no process |
| Services.ServiceManager.GetService | coordinator/service_manager.py:236-238 | returns the registered service for a known name, None otherwise |
| Services.ServiceManager.StartAll | coordinator/service_manager.py:211-220 | every service is started in registration order, with no short-circuit; each ends in its `StartEffect` state; the result is true exactly when every start succeeded |
| Services.ServiceManager.StopAll | coordinator/service_manager.py:222-227 | every service ends in its `StopEffect` state |
| Services.ServiceManager.RestartAll | coordinator/service_manager.py:229-234 | each service ends as a stop followed by a start leaves it; the result is true exactly when every such start succeeded |
| Services.ServiceManager.HealthCheckAll | coordinator/service_manager.py:240-245 | one entry per registered service, true exactly when its probe answered 200; each status follows `StatusAfterProbe`; process handles are unchanged |
| Services.ServiceManager.GetStatus | coordinator/service_manager.py:247-256 | one entry per service, holding the status value from before the probe, the service URL and the probe's health; the statuses then follow `StatusAfterProbe` |
| WebpageAnalysis.AvailabilityCases | DuckDuckGo_lens/webpage_analyzer.py:31-35 | the LLM is unavailable exactly for a missing key, an empty key or the placeholder key |
| WebpageAnalysis.NormalizeText | DuckDuckGo_lens/webpage_analyzer.py:109-112 | the cleaned text is empty or one chunk: no whitespace at either end, no double space, no line break |
| WebpageAnalysis.NormalizeKeepsWords | DuckDuckGo_lens/webpage_analyzer.py:109-112 | the clean-up loses and adds no word: the cleaned text has exactly the words of the page text, in order |
| WebpageAnalysis.NormalizeKeepsFirstChunk | DuckDuckGo_lens/webpage_analyzer.py:109-112 | a clean chunk on the first line of a text comes out as it is, inner whitespace such as " \t" included, followed by a single space and the cleaned rest of the text (or alone when the rest cleans to nothing) |
| WebpageAnalysis.NormalizedFixed | DuckDuckGo_lens/webpage_analyzer.py:109-112 | text that is already clean passes through the clean-up unchanged |
| WebpageAnalysis.NormalizeIdempotent | DuckDuckGo_lens/webpage_analyzer.py:109-112 | cleaning cleaned text changes nothing |
| WebpageAnalysis.FetchPageContent | DuckDuckGo_lens/webpage_analyzer.py:90-122 | content comes back exactly for a 200 response; it is a prefix of the cleaned text whose length is exactly what `text[:max_length]` gives (`min(max_length, n)` for `max_length >= 0`, `n + max_length` floored at 0 otherwise); it is the whole cleaned text when that fits, and free of double spaces and line breaks |
| WebpageAnalysis.AnalyzePageWithLlm | DuckDuckGo_lens/webpage_analyzer.py:124-168 | with no LLM or no content the verdict is "No LLM or content"; with no reply it is "LLM failed to respond"; otherwise the reason is the stripped reply, and a selling verdict means the reply, upper-cased, starts with "YES" |
| WebpageAnalysis.YesReplySells | DuckDuckGo_lens/webpage_analyzer.py:159-163 | a reply that starts, after whitespace, with "yes" in any letter case is a selling verdict |
| WebpageAnalysis.OtherReplyRejects | DuckDuckGo_lens/webpage_analyzer.py:159-163 | a reply whose first non-whitespace character is not 'y' or 'Y' is a rejection |
| WebpageAnalysis.CountMatches | DuckDuckGo_lens/webpage_analyzer.py:186 | the count is the number of keyword positions whose keyword occurs in the page; so it is at most the number of keywords, equals it exactly when every keyword occurs, and is 0 exactly when none occurs |
| WebpageAnalysis.AnalyzePageSimple | DuckDuckGo_lens/webpage_analyzer.py:170-192 | an empty page is rejected with "No content"; for a non-empty page the verdict sells exactly when the lower-cased page holds an e-commerce word and more than half of the description's words occur in it (ratio > 0.5); the reason reports the keyword matches against the keyword count; an empty description never sells |
| WebpageAnalysis.SimpleVerdictIgnoresCase | DuckDuckGo_lens/webpage_analyzer.py:175-186 | upper-casing the page and the description does not change the heuristic's verdict |
| WebpageAnalysis.SimpleVerdictMonotone | DuckDuckGo_lens/webpage_analyzer.py:181-189 | a page the heuristic accepts stays accepted when text is appended to it |
| WebpageAnalysis.AllKeywordsSells | DuckDuckGo_lens/webpage_analyzer.py:181-190 | a non-empty page with an e-commerce word and every description keyword is accepted |
| WebpageAnalysis.WebpageAnalyzer.constructor | DuckDuckGo_lens/webpage_analyzer.py:82-88 | the analyzer keeps its LLM exactly when the key is available |
| WebpageAnalysis.VerifyUrlSellsFurniture | DuckDuckGo_lens/webpage_analyzer.py:194-217 | only a page fetched with status 200 can sell; no or empty content gives "Could not fetch page"; otherwise the verdict is the LLM's, when configured, or else the heuristic's, on the first 3000 characters |
| WebpageAnalysis.Verified | DuckDuckGo_lens/webpage_analyzer.py:238-255 | keeps no more entries than URLs |
| WebpageAnalysis.VerifiedSpec | DuckDuckGo_lens/webpage_analyzer.py:238-255 | every kept URL was judged to sell and carries its verdict's reason, and every URL judged to sell is kept |
| WebpageAnalysis.SortByVerdict | DuckDuckGo_lens/webpage_analyzer.py:238-253 | the relevant list is the selling URLs with their reasons, in order; relevant and rejected together account for every URL checked |
| WebpageAnalysis.FilterRelevantResults | DuckDuckGo_lens/webpage_analyzer.py:220-255 | only the first `max_analyze` URLs are checked; the result is the selling ones among them, in order with their reasons, and never more than `max_analyze` |
| DuckDuckGoSearch.HitUrl | DuckDuckGo_lens/goolglsearch.py:20-22 | a result's URL is its non-empty 'href', else its non-empty 'link', else none |
| DuckDuckGoSearch.HitUrls | DuckDuckGo_lens/DuckDuckgo_search.py:14 | never more URLs than results |
| DuckDuckGoSearch.HitUrlsSpec | DuckDuckGo_lens/DuckDuckgo_search.py:14 | every URL kept is the non-empty URL of some result, and every result with a URL contributes it |
| DuckDuckGoSearch.SearchUrls | DuckDuckGo_lens/DuckDuckgo_search.py:10-17 | a failed search gives no URLs; otherwise the results' URLs |
| DuckDuckGoSearch.StopIndex | DuckDuckGo_lens/DuckDuckgo_search.py:33-35 | the loop stops at the first position where the sellers found reach the target, or at the end; before that they stay below it |
| DuckDuckGoSearch.VerifyUntilTargetBound | DuckDuckGo_lens/DuckDuckgo_search.py:33-38 | the loop never keeps more sellers than the target |
| DuckDuckGoSearch.VerifyUntilTargetShort | DuckDuckGo_lens/DuckDuckgo_search.py:33-38 | when the target is not reached, every result was verified |
| DuckDuckGoSearch.SellersFound | DuckDuckGo_lens/DuckDuckgo_search.py:20-40 | no search results give no sellers and a count of 0; the count is the number of results of the one search for twice the target |
| DuckDuckGoSearch.FindVerifiedSellers | DuckDuckGo_lens/DuckDuckgo_search.py:20-40 | the loop gives the sellers and count of `SellersFound`, and never more sellers than the target |
| DuckDuckGoSearch.ExtractSearchQuery | DuckDuckGo_lens/DuckDuckgo_search.py:46-72 | no query without a key or a reply; otherwise the query is exactly the reply, stripped |
| DuckDuckGoSearch.Netloc | DuckDuckGo_lens/DuckDuckgo_search.py:79 | the network location contains no '/', '?' or '#' |
| DuckDuckGoSearch.NetlocOfUrl | DuckDuckGo_lens/DuckDuckgo_search.py:79 | for `scheme://host` followed by a path, query, fragment or nothing, the network location is the host |
| DuckDuckGoSearch.NetlocName | DuckDuckGo_lens/DuckDuckgo_search.py:79 | the saved website name is the network location with "www." removed, so it is no longer than the location |
| DuckDuckGoSearch.SellerRecords | DuckDuckGo_lens/DuckDuckgo_search.py:75-83 | one record per seller, in order, holding the seller's URL, its reason and its host name |
| DuckDuckGoSearch.AddSellers | DuckDuckGo_lens/DuckDuckgo_search.py:126-129 | sets 'Website name' and 'Website link' to equal-length lists taken from the sellers in order; the other keys stay as they were |
| DuckDuckGoSearch.UpdateIssue | DuckDuckGo_lens/DuckDuckgo_search.py:102-132 | already processed issues, and issues without a recommendation, are left as they are; a missing 'item' stops the run; an issue changes exactly when it lacks website info, has a recommendation and an 'item', and the search for its extracted query finds sellers; it then gets 'Website name' and 'Website link' built from exactly those sellers, in order |
| DuckDuckGoSearch.ProcessIssue | DuckDuckGo_lens/DuckDuckgo_search.py:102-132 | the loop body makes of an issue what `UpdateIssue` says |
| DuckDuckGoSearch.UpdateIssues | DuckDuckGo_lens/DuckDuckgo_search.py:96-138 | the issues before the stopping point are updated in place; the rest are untouched; the file is saved exactly when no issue stopped the run |
| GoolglSearch.ElementsSpec | DuckDuckGo_lens/goolglsearch.py:91 | the set of checked URLs holds exactly the URLs of the list |
| GoolglSearch.NewUrls | DuckDuckGo_lens/goolglsearch.py:81 | never more new URLs than results |
| GoolglSearch.NewUrlsSpec | DuckDuckGo_lens/goolglsearch.py:81 | the new URLs are exactly the results not checked before |
| GoolglSearch.NextBatch | DuckDuckGo_lens/goolglsearch.py:59-106 | a batch runs only while attempts remain and the target is not reached |
| GoolglSearch.NextBatchKept | DuckDuckGo_lens/goolglsearch.py:59-106 | each batch preserves the loop's invariant; while attempts remain and the target is not reached, a batch fails to run only because its search gave no new URL |
| GoolglSearch.NextBatchBound | DuckDuckGo_lens/goolglsearch.py:96-106 | a batch never takes the seller count past the target |
| GoolglSearch.SearchBatchesKept | DuckDuckGo_lens/goolglsearch.py:59-106 | the whole loop runs at most three batches and preserves the invariant: sellers are the verified URLs among those examined; the checked set is exactly the examined URLs; each batch examined only its own search's URLs and none that an earlier batch examined; fewer than target sellers were found before each URL; the loop ends early below target only when a search gave no new URL |
| GoolglSearch.SearchBatchesBound | DuckDuckGo_lens/goolglsearch.py:59-106 | the loop never keeps more sellers than the target |
| GoolglSearch.BatchedSellersSpec | DuckDuckGo_lens/goolglsearch.py:37-110 | the batched finder returns the sellers and the number of checked URLs; at most the target sellers, at most three batches, with the loop invariant at the end |
| GoolglSearch.SellersWereChecked | DuckDuckGo_lens/goolglsearch.py:89-110 | every seller returned is a checked URL judged to sell, with its verdict's reason, and every checked URL judged to sell is returned |
| GoolglSearch.VerifyBatch | DuckDuckGo_lens/goolglsearch.py:90-106 | the inner loop adds the verified URLs among the new URLs it examines before reaching the target, and marks exactly those URLs checked |
| GoolglSearch.SearchBatch | DuckDuckGo_lens/goolglsearch.py:70-106 | one batch gives what `NextBatch` says; no batch means nothing changed |
| GoolglSearch.FindVerifiedSellersBatched | DuckDuckGo_lens/goolglsearch.py:37-110 | the loops return what `BatchedSellers` says, and never more sellers than the target |
| ProductSearchServer.DefaultRequest | DuckDuckGo_lens/product_search_server.py:27-32 | the default request (location Singapore, 5 sellers, 3 attempts) is within the field bounds |
| ProductSearchServer.RetryQueries | DuckDuckGo_lens/product_search_server.py:131-158 | the retry loop only adds queries to the attempted list; the list never repeats a query, ends with the current query and holds at most `max_retries` queries |
| ProductSearchServer.RetrySearches | DuckDuckGo_lens/product_search_server.py:135-158 | the loop searches at least once (when an attempt is left) and at most `max_retries` times; sellers come from the last search, made with the final query; the batch loop gives up only after `max_retries` searches; the single loop gives up earlier only on an empty or already-tried refinement |
| ProductSearchServer.RetrySearch | DuckDuckGo_lens/product_search_server.py:131-158 | the loop ends in the state `Retry` describes |
| ProductSearchServer.WebsiteName | DuckDuckGo_lens/product_search_server.py:163 | a name exists exactly when the URL has at least three '/'-separated pieces; it holds no '/' and is no longer than the URL |
| ProductSearchServer.ThirdPiece | DuckDuckGo_lens/product_search_server.py:163 | in `prefix//host/...` the third '/'-piece is the host |
| ProductSearchServer.WebsiteNameOfUrl | DuckDuckGo_lens/product_search_server.py:163 | for `scheme://host/...` the service's website name is the host without "www.", the same as the updater's network-location name |
| ProductSearchServer.BareHostHasNoName | DuckDuckGo_lens/product_search_server.py:161-182 | a URL without a scheme (such as "example.com") has no third piece, so naming it fails (IndexError, status 500) |
| ProductSearchServer.SellerList | DuckDuckGo_lens/product_search_server.py:161-168 | the list is built exactly when every seller URL has a name; it has one entry per seller, in order, with name, link and reason |
| ProductSearchServer.SearchOutcomeSpec | DuckDuckGo_lens/product_search_server.py:102-182 | 422 exactly when a field is out of bounds; every response succeeds; the no-purchase response comes exactly when the extraction gives no query or no product type; otherwise the attempted queries start with the original, never repeat, number at most `max_retries` and end with the final query, and the message says "No verified sellers found" exactly when there are none |
| ProductSearchServer.SearchOutcomeSellers | DuckDuckGo_lens/product_search_server.py:131-182 | when a search is needed, the response is 500 exactly when a seller found by the retry loop has no website name; otherwise it lists exactly those sellers (the last search's, made with the final query after 1 to `max_retries` searches) with their names |
| ProductSearchServer.SearchProduct | DuckDuckGo_lens/product_search_server.py:102-182 | the endpoint answers with what `SearchOutcome` says |
| ProductSearchServer.ServerIssueUpdate | DuckDuckGo_lens/product_search_server.py:197-253 | failures are 500; issues without a recommendation, or already processed, pass through unchanged and uncounted; a counted issue gets non-empty name and link lists of equal length and keeps its other keys; 'Search query used' is set to the final query exactly when that differs from the original, and otherwise keeps its old value; an issue to search is counted exactly when its query and product type are non-empty and the retry loop found sellers that all have website names, and fails with 500 exactly when one of them has none |
| ProductSearchServer.ServerIssueUpdateSellers | DuckDuckGo_lens/product_search_server.py:219-251 | a counted issue's links are the sellers of the last search, in order, and its names are their website names |
| ProductSearchServer.ProcessedCount | DuckDuckGo_lens/product_search_server.py:246-251 | never more processed issues than issues |
| ProductSearchServer.ProcessServerIssue | DuckDuckGo_lens/product_search_server.py:197-253 | the loop body gives what `ServerIssueUpdate` says |
| ProductSearchServer.BatchSearchProducts | DuckDuckGo_lens/product_search_server.py:185-262 | 422 with the issues untouched when a field is out of bounds; otherwise the issues are updated in place up to the first failure (status 500), the rest are untouched, and a full pass reports the issue count, the processed count and the updated issues |

## Left out

- Process creation, `terminate`/`wait`/`kill`, the one-second and two-second pauses and logging are not modelled. Each appears only through the outcome it produces: a spawned handle, a stop outcome, or a probe response.
- Services.SubmoduleService.Start: the read of the child's stderr after sixty failed probes (`coordinator/service_manager.py:126-129`) is not modelled. The child is still running at that point and nothing kills it, so `read()` waits until the child closes its stderr, normally when it exits. On the timeout path `start()` therefore returns False only once that happens, and may never return. The timeout case of `StartEffect` (status ERROR, the spawned handle kept, result false) describes `start()` only when it does return.
- Services.SubmoduleService.Start: the transient STARTING status is set and then overwritten within one call, so it is never visible after `start()` returns. A `Popen` that raises is modelled as "no handle".
- Config.ParseInt: Python's `int()` also accepts underscores between digits and non-ASCII decimal digits. The model rejects those, so a port written that way fails to load here but not in Python.
- Strings.Lower: `str.lower()` and `str.upper()` are modelled for ASCII letters only. Other letters keep their case.
- The `.env` loading at import time (`coordinator/config.py:10-17`) is not modelled; the environment is a parameter. `IMAGE_GEN_PATH` (`coordinator/config.py:41`) is not modelled, because no modelled code uses it.
- `coordinator/main.py` and the image, speech and analysis scripts are not part of this model.
- The OpenRouter client is not modelled: its prompt text, the rate-limit, timeout and connection messages of `analyze()` (`DuckDuckGo_lens/webpage_analyzer.py:37-76`), and the model name.
- WebpageAnalysis.AnalyzePageWithLlm: the `"Error: {e}"` branch (`DuckDuckGo_lens/webpage_analyzer.py:167-168`) is not modelled. The LLM is a total function, so a failed call can only surface as "no reply".
- WebpageAnalysis.AnalyzePageSimple: the reason holds the keyword match count and the keyword count rather than the formatted `"Keywords match: NN%, ..."` text.
- WebpageAnalysis.FetchPageContent: the HTML parsing and the removal of script, style, nav, footer and header elements are not modelled. The page is given as the text BeautifulSoup would extract.
- DuckDuckGoSearch.Netloc: several behaviours of Python's `urlparse` are not modelled. It strips leading C0 control characters and spaces from the URL, and deletes every tab, carriage return and line feed. It also raises ValueError ("Invalid IPv6 URL") when the network location has a '[' without a matching ']' or the reverse, and it raises the other ValueErrors `urlsplit` gives for malformed hosts: a bracketed host that is not a valid IPv6 or IPvFuture address, or a non-ASCII network location whose NFKC form holds one of `/?#@:`. In the updater that exception is caught only by the outer handler of the `__main__` block (`DuckDuckGo_lens/DuckDuckgo_search.py:96-141`), so it ends the run before the file is rewritten; in `save_to_json` it is caught and reported as a failed save. The model takes the URL as given and always yields a network location, so none of these ValueErrors is modelled.
- DuckDuckGoSearch.FindVerifiedSellers: the `except` path that returns no sellers when verification raises (`DuckDuckGo_lens/DuckDuckgo_search.py:41-43`) is not modelled, because verdicts are a total function.
- The updater's reading and writing of the JSON file is not modelled; the issue list is an array, and `saved` says whether the file would be rewritten. A file without an 'issues' key is not modelled either.
- The product search service's FastAPI plumbing is not modelled:
  - the `/` and `/health` endpoints;
  - pydantic's type coercion (only the field bounds, answered with 422, are modelled);
  - uvicorn start-up.
- The product search service as written never starts. Its import (`DuckDuckGo_lens/product_search_server.py:11-15`) names `refine_search_query` and `find_verified_sellers`, which `DuckDuckgo_search.py` does not define, so the import raises ImportError. The `extract_search_query` it does define takes one argument and returns a single query (`DuckDuckGo_lens/DuckDuckgo_search.py:46`), not the `(product_type, query)` pair the service expects. The model describes the service as evidently intended: the three collaborators are given functions with the signatures the service calls them with. An exception inside them (status 500) is not modelled; the naming IndexError is.
- GoolglSearch.VerifyBatch: a verdict is a function of the URL alone, so a URL that appears twice among one batch's new URLs gets the same verdict both times. The source fetches and judges such a URL again, and a page or LLM answer that changed in between could give a different verdict.
- DuckDuckGoSearch.VerifyUntilTarget and DuckDuckGoSearch.FindVerifiedSellers: for the same reason, a URL that appears twice in one search's results (`DuckDuckGo_lens/DuckDuckgo_search.py:33-38`) gets the same verdict both times. The source judges it again and could reach a different verdict.
- WebpageAnalysis.SortByVerdict and WebpageAnalysis.FilterRelevantResults: likewise, a URL that appears twice in the list to check (`DuckDuckGo_lens/webpage_analyzer.py:238-253`) gets the same verdict both times. The source judges it again and could reach a different verdict.
- The `__main__` demonstration blocks of `webpage_analyzer.py` and `goolglsearch.py` print results only, and are not modelled.

