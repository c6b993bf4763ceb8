/**
 * Deciding whether a web page is a store that sells a piece of furniture:
 * the OpenRouter availability check, the page-text clean-up and truncation,
 * the LLM "YES" verdict, the keyword/e-commerce fallback heuristic and the
 * loop that keeps the verified URLs.
 *
 * The page download (`requests.get` and BeautifulSoup's text extraction) is
 * a `PageResponse` value per URL; the LLM is a function from what the prompt
 * is built from (page content, description, URL) to the completion text,
 * None when the call raised or returned nothing.
 */
module WebpageAnalysis {
  import opened Common
  import opened Strings

  /** The placeholder value of OPENROUTER_API_KEY shipped in the example environment file. */
  const ApiKeyPlaceholder := "your_openrouter_api_key_here"

  /** `OpenRouterLLM.is_available()`: a key that is set, non-empty and not the placeholder. */
  predicate IsAvailable(apiKey: Option<string>)
  {
    apiKey.Some? && apiKey.value != "" && apiKey.value != ApiKeyPlaceholder
  }

  /** The only keys `is_available()` rejects are the missing, the empty and the placeholder one. */
  lemma AvailabilityCases(apiKey: Option<string>)
    ensures !IsAvailable(apiKey) <==> apiKey == None || apiKey == Some("") || apiKey == Some(ApiKeyPlaceholder)
  {
  }

  /** The outcome of fetching a URL: a status code and the page's extracted text, or an exception. */
  datatype PageResponse = Page(statusCode: int, text: string) | FetchFailed

  /** Why a page was accepted or rejected: a message, or the keyword counts of the fallback heuristic. */
  datatype Reason = Note(text: string) | KeywordReport(matches: nat, keywords: nat)

  /** `(is_selling, reason)`. */
  datatype Verdict = Verdict(selling: bool, reason: Reason)

  /** A `{'url': ..., 'reason': ...}` entry of a list of checked pages. */
  datatype CheckedUrl = CheckedUrl(url: string, reason: Reason)

  const DefaultMaxLength := 3000
  const NoContent := "No content"
  const NoLlmOrContent := "No LLM or content"
  const LlmNoResponse := "LLM failed to respond"
  const CouldNotFetch := "Could not fetch page"

  /** The words whose presence marks a page as an online shop (matched after lower-casing). */
  const EcommerceWords: seq<string> :=
    ["buy", "price", "add to cart", "shop", "purchase", "order", "delivery", "$", "SGD"]

  // ---------------------------------------------------------------------
  // Page text clean-up
  // ---------------------------------------------------------------------

  /** A chunk of cleaned text: non-empty, no whitespace at its ends, no double space, no line break. */
  predicate CleanChunk(s: string)
  {
    s != [] && !IsSpace(s[0]) && !IsSpace(s[|s| - 1]) && NoDoubleSpace(s) && NoLineBreak(s)
  }

  /** What the clean-up produces: the empty text or one clean chunk. */
  predicate Normalized(s: string)
  {
    s == [] || CleanChunk(s)
  }

  /** The stripped pieces that are not empty, in order. */
  function KeepChunks(pieces: seq<string>): (r: seq<string>)
    ensures |r| <= |pieces|
  {
    if pieces == [] then []
    else
      var c := Strip(pieces[0]);
      (if c == [] then [] else [c]) + KeepChunks(pieces[1..])
  }

  /** For each line: strip it, split it on double spaces, strip and keep the non-empty pieces. */
  function LineChunks(lines: seq<string>): seq<string>
  {
    if lines == [] then []
    else KeepChunks(SplitOnDoubleSpace(Strip(lines[0]))) + LineChunks(lines[1..])
  }

  /** The whitespace clean-up of `fetch_page_content`, before truncation. */
  function NormalizeText(text: string): (r: string)
    ensures Normalized(r)
    ensures NoDoubleSpace(r) && NoLineBreak(r)
  {
    var chunks := LineChunks(SplitLines(text));
    LineChunksClean(SplitLines(text));
    JoinClean(chunks);
    Join(chunks, " ")
  }

  /** The clean-up changes only whitespace: the words of the text, in order, are kept. */
  lemma NormalizeKeepsWords(text: string)
    ensures Words(NormalizeText(text)) == Words(text)
  {
    var lines := SplitLines(text);
    var chunks := LineChunks(lines);
    assert NormalizeText(text) == Join(chunks, " ");
    WordsOfJoin(chunks, " ");
    LineChunksWords(lines);
    SplitLinesWords(text);
  }

  /** Stripping the pieces and dropping the empty ones keeps their words. */
  lemma {:induction false} KeepChunksWords(pieces: seq<string>)
    ensures ConcatWords(KeepChunks(pieces)) == ConcatWords(pieces)
  {
    if pieces != [] {
      var c := Strip(pieces[0]);
      var head := if c == [] then [] else [c];
      KeepChunksWords(pieces[1..]);
      ConcatWordsAppend(head, KeepChunks(pieces[1..]));
      WordsOfStrip(pieces[0]);
      if c != [] {
        assert ConcatWords(head) == Words(c) + ConcatWords([]);
      }
    }
  }

  /** Cutting each line into stripped, non-empty chunks keeps the words of the lines. */
  lemma {:induction false} LineChunksWords(lines: seq<string>)
    ensures ConcatWords(LineChunks(lines)) == ConcatWords(lines)
  {
    if lines != [] {
      var pieces := SplitOnDoubleSpace(Strip(lines[0]));
      LineChunksWords(lines[1..]);
      ConcatWordsAppend(KeepChunks(pieces), LineChunks(lines[1..]));
      KeepChunksWords(pieces);
      SplitOnDoubleSpaceWords(Strip(lines[0]));
      WordsOfStrip(lines[0]);
    }
  }

  lemma SliceClean(p: string, i: nat, n: nat)
    requires i + n <= |p| && NoDoubleSpace(p) && NoLineBreak(p)
    ensures NoDoubleSpace(p[i..i + n]) && NoLineBreak(p[i..i + n])
  {
    var c := p[i..i + n];
    assert forall k :: 0 <= k < n ==> c[k] == p[i + k];
  }

  /** Stripping a piece without double spaces or line breaks leaves nothing or a clean chunk. */
  lemma StripClean(p: string)
    requires NoDoubleSpace(p) && NoLineBreak(p)
    ensures Strip(p) != [] ==> CleanChunk(Strip(p))
  {
    var c := Strip(p);
    if c != [] {
      SliceClean(p, Lead(p), |c|);
    }
  }

  /** Every chunk of the list is clean. */
  predicate AllClean(chunks: seq<string>)
  {
    forall k :: 0 <= k < |chunks| ==> CleanChunk(chunks[k])
  }

  lemma PrependClean(c: string, rest: seq<string>)
    requires c != [] ==> CleanChunk(c)
    requires AllClean(rest)
    ensures AllClean((if c == [] then [] else [c]) + rest)
  {
    var r := (if c == [] then [] else [c]) + rest;
    if c != [] {
      assert forall k :: 1 <= k < |r| ==> r[k] == rest[k - 1];
    } else {
      assert r == rest;
    }
  }

  lemma {:induction false} KeepChunksClean(pieces: seq<string>)
    requires forall k :: 0 <= k < |pieces| ==> NoDoubleSpace(pieces[k]) && NoLineBreak(pieces[k])
    ensures AllClean(KeepChunks(pieces))
  {
    if pieces != [] {
      var p := pieces[0];
      var tail := pieces[1..];
      assert forall k :: 0 <= k < |tail| ==> tail[k] == pieces[k + 1];
      KeepChunksClean(tail);
      KeepChunksStep(pieces);
    }
  }

  /** The first piece, stripped and kept when non-empty, in front of the clean rest stays clean. */
  lemma KeepChunksStep(pieces: seq<string>)
    requires pieces != [] && NoDoubleSpace(pieces[0]) && NoLineBreak(pieces[0])
    requires AllClean(KeepChunks(pieces[1..]))
    ensures AllClean(KeepChunks(pieces))
  {
    var c := Strip(pieces[0]);
    StripClean(pieces[0]);
    PrependClean(c, KeepChunks(pieces[1..]));
  }

  lemma {:induction false} LineChunksClean(lines: seq<string>)
    requires forall k :: 0 <= k < |lines| ==> NoLineBreak(lines[k])
    ensures AllClean(LineChunks(lines))
  {
    if lines != [] {
      var pieces := SplitOnDoubleSpace(Strip(lines[0]));
      LinePieces(lines[0]);
      KeepChunksClean(pieces);
      LineChunksClean(lines[1..]);
      AppendClean(KeepChunks(pieces), LineChunks(lines[1..]));
    }
  }

  /** The double-space pieces of a stripped line hold no line break and no double space. */
  lemma LinePieces(line: string)
    requires NoLineBreak(line)
    ensures var pieces := SplitOnDoubleSpace(Strip(line));
      forall k :: 0 <= k < |pieces| ==> NoDoubleSpace(pieces[k]) && NoLineBreak(pieces[k])
  {
    var stripped := Strip(line);
    SliceClean2(line, Lead(line), |stripped|);
    var pieces := SplitOnDoubleSpace(stripped);
    forall k | 0 <= k < |pieces|
      ensures NoLineBreak(pieces[k])
    {
      forall j | 0 <= j < |pieces[k]|
        ensures !IsLineBreak(pieces[k][j])
      {
        assert pieces[k][j] in stripped;
      }
    }
  }

  lemma AppendClean(a: seq<string>, b: seq<string>)
    requires AllClean(a) && AllClean(b)
    ensures AllClean(a + b)
  {
    assert forall k :: |a| <= k < |a + b| ==> (a + b)[k] == b[k - |a|];
  }

  lemma SliceClean2(p: string, i: nat, n: nat)
    requires i + n <= |p| && NoLineBreak(p)
    ensures NoLineBreak(p[i..i + n])
  {
    var c := p[i..i + n];
    assert forall k :: 0 <= k < n ==> c[k] == p[i + k];
  }

  /** Two clean chunks joined by one space make a clean chunk. */
  lemma ConcatClean(a: string, b: string)
    requires CleanChunk(a) && CleanChunk(b)
    ensures CleanChunk(a + " " + b)
  {
    var s := a + " " + b;
    assert forall k :: 0 <= k < |a| ==> s[k] == a[k];
    assert s[|a|] == ' ';
    assert forall k :: 0 <= k < |b| ==> s[|a| + 1 + k] == b[k];
  }

  lemma {:induction false} JoinClean(chunks: seq<string>)
    requires AllClean(chunks)
    ensures Normalized(Join(chunks, " "))
  {
    if |chunks| > 1 {
      JoinClean(chunks[1..]);
      var rest := Join(chunks[1..], " ");
      assert rest != [] by {
        if |chunks| > 2 {
          assert |rest| >= |chunks[1]|;
        }
      }
      ConcatClean(chunks[0], rest);
    }
  }

  /** Text that is already clean passes through the clean-up unchanged. */
  lemma NormalizedFixed(t: string)
    requires Normalized(t)
    ensures NormalizeText(t) == t
  {
    if t != [] {
      assert TakeLine(t) == t;
      assert SplitLines(t) == [t];
      StripUnpadded(t);
      NoDoubleSpaceUnsplit(t);
      assert KeepChunks([t]) == [t];
      assert LineChunks([t]) == [t];
    }
  }

  /** Cleaning cleaned text changes nothing. */
  lemma NormalizeIdempotent(text: string)
    ensures NormalizeText(NormalizeText(text)) == NormalizeText(text)
  {
    NormalizedFixed(NormalizeText(text));
  }

  /**
   * A clean chunk on its own first line survives the clean-up as it is, inner
   * whitespace such as a tab included, followed by the cleaned rest of the text.
   */
  lemma NormalizeKeepsFirstChunk(c: string, rest: string)
    requires CleanChunk(c)
    ensures var tail := NormalizeText(rest);
      NormalizeText(c + "\n" + rest) == if tail == [] then c else c + " " + tail
  {
    var text := c + "\n" + rest;
    assert TakeLine(text) == c by {
      TakeLineBeforeBreak(c, rest);
    }
    assert text[|c|..] == "\n" + rest;
    SplitLinesStep(text);
    assert AfterBreak("\n" + rest) == rest;
    var lines := SplitLines(rest);
    assert SplitLines(text) == [c] + lines;
    StripUnpadded(c);
    NoDoubleSpaceUnsplit(c);
    assert KeepChunks([c]) == [c];
    assert ([c] + lines)[1..] == lines;
    assert LineChunks([c] + lines) == [c] + LineChunks(lines);
    var chunks := LineChunks(lines);
    if chunks != [] {
      LineChunksClean(lines);
      assert chunks[0] != [];
      JoinNonEmpty(chunks);
    }
    assert ([c] + chunks)[1..] == chunks;
  }

  /** Joining chunks whose first one is non-empty gives a non-empty text. */
  lemma JoinNonEmpty(chunks: seq<string>)
    requires chunks != [] && chunks[0] != []
    ensures Join(chunks, " ") != []
  {
  }

  /**
   * `fetch_page_content(url, max_length)`: the cleaned text of a 200 response
   * cut to `max_length` (Python slicing, so a negative length counts from the
   * end); None for any other status or when the request raised.
   */
  function FetchPageContent(response: PageResponse, maxLength: int): (r: Option<string>)
    ensures r.Some? <==> response.Page? && response.statusCode == 200
    ensures r.Some? ==> |r.value| <= |NormalizeText(response.text)|
    ensures r.Some? ==> r.value == NormalizeText(response.text)[..|r.value|]
    ensures r.Some? && maxLength >= 0 ==> |r.value| <= maxLength
    // `[:max_length]` keeps exactly that many characters when there are enough
    ensures r.Some? ==>
      var n := |NormalizeText(response.text)|;
      |r.value| == if maxLength >= 0 then (if maxLength < n then maxLength else n)
                   else (if n + maxLength < 0 then 0 else n + maxLength)
    ensures r.Some? && 0 <= |NormalizeText(response.text)| <= maxLength ==> r.value == NormalizeText(response.text)
    ensures r.Some? ==> NoDoubleSpace(r.value) && NoLineBreak(r.value)
  {
    match response
    case Page(code, text) =>
      if code == 200 then
        var clean := NormalizeText(text);
        var cut := SlicePrefix(clean, maxLength);
        SliceClean(clean, 0, |cut|);
        Some(cut)
      else None
    case FetchFailed => None
  }

  // ---------------------------------------------------------------------
  // Verdicts
  // ---------------------------------------------------------------------

  /**
   * `analyze_page_with_llm`'s decision given the completion `reply`: selling
   * exactly when the stripped reply, upper-cased, starts with "YES"; the
   * stripped reply is the reason.
   */
  function AnalyzePageWithLlm(llmConfigured: bool, content: string, reply: Option<string>): (r: Verdict)
    ensures !llmConfigured || content == [] ==> r == Verdict(false, Note(NoLlmOrContent))
    ensures llmConfigured && content != [] && (reply == None || reply == Some("")) ==>
      r == Verdict(false, Note(LlmNoResponse))
    ensures llmConfigured && content != [] && reply.Some? && reply.value != [] ==>
      r.reason == Note(Strip(reply.value))
    ensures r.selling ==> r.reason.Note? && StartsWith(Upper(r.reason.text), "YES")
  {
    if !llmConfigured || content == [] then Verdict(false, Note(NoLlmOrContent))
    else if reply.None? || reply.value == [] then Verdict(false, Note(LlmNoResponse))
    else
      var answer := Strip(reply.value);
      Verdict(StartsWith(Upper(answer), "YES"), Note(answer))
  }

  /** A reply that starts, after any whitespace, with "yes" in any letter case is a selling verdict. */
  lemma YesReplySells(content: string, pad: string, yes: string, rest: string)
    requires content != []
    requires forall k :: 0 <= k < |pad| ==> IsSpace(pad[k])
    requires |yes| == 3 && Upper(yes) == "YES"
    ensures AnalyzePageWithLlm(true, content, Some(pad + yes + rest)).selling
  {
    assert UpperChar(yes[0]) == Upper(yes)[0] == 'Y';
    assert UpperChar(yes[2]) == Upper(yes)[2] == 'S';
    LetterNotSpace(yes[0]);
    LetterNotSpace(yes[2]);
    StripKeepsHead(pad, yes, rest);
    var answer := Strip(pad + yes + rest);
    assert Upper(answer)[..3] == Upper(yes);
  }

  /** A reply whose first non-whitespace code point is not a "y" in either case is a rejection. */
  lemma OtherReplyRejects(content: string, pad: string, first: char, rest: string)
    requires forall k :: 0 <= k < |pad| ==> IsSpace(pad[k])
    requires !IsSpace(first) && first != 'y' && first != 'Y'
    ensures !AnalyzePageWithLlm(true, content, Some(pad + [first] + rest)).selling
  {
    StripKeepsHead(pad, [first], rest);
    NotYesHead(Strip(pad + [first] + rest));
  }

  lemma NotYesHead(answer: string)
    requires answer != [] && answer[0] != 'y' && answer[0] != 'Y'
    ensures !StartsWith(Upper(answer), "YES")
  {
    assert Upper(answer)[0] != 'Y';
  }

  /** The positions of `keywords` whose keyword occurs in `page`. */
  function MatchIndices(keywords: seq<string>, page: string): set<nat>
  {
    set k: nat | k < |keywords| && Contains(page, keywords[k])
  }

  /** The matches among all keywords are those among all but the last, and the last if it matches. */
  lemma MatchIndicesSnoc(keywords: seq<string>, page: string)
    requires keywords != []
    ensures var n := |keywords| - 1;
      |MatchIndices(keywords, page)|
      == |MatchIndices(keywords[..n], page)| + (if Contains(page, keywords[n]) then 1 else 0)
  {
    var n := |keywords| - 1;
    var init := keywords[..n];
    var before := MatchIndices(init, page);
    assert forall k :: 0 <= k < n ==> init[k] == keywords[k];
    if Contains(page, keywords[n]) {
      assert MatchIndices(keywords, page) == before + {n};
      assert n !in before;
    } else {
      assert MatchIndices(keywords, page) == before;
    }
  }

  /**
   * `sum(1 for keyword in keywords if keyword in page_lower)`: the number of
   * positions whose keyword occurs in the page (a repeated keyword counts
   * each time).
   */
  function CountMatches(keywords: seq<string>, page: string): (r: nat)
    ensures r == |MatchIndices(keywords, page)|
    ensures r <= |keywords|
    ensures r == |keywords| <==> forall k :: 0 <= k < |keywords| ==> Contains(page, keywords[k])
    ensures r == 0 <==> forall k :: 0 <= k < |keywords| ==> !Contains(page, keywords[k])
  {
    if keywords == [] then
      assert MatchIndices(keywords, page) == {};
      0
    else
      var n := |keywords| - 1;
      var init := keywords[..n];
      var rest := CountMatches(init, page);
      assert forall k :: 0 <= k < n ==> keywords[k] == init[k];
      MatchIndicesSnoc(keywords, page);
      rest + (if Contains(page, keywords[n]) then 1 else 0)
  }

  /** Some e-commerce word, lower-cased, occurs in the lower-cased page. */
  predicate HasEcommerce(pageLower: string)
  {
    exists k :: 0 <= k < |EcommerceWords| && Contains(pageLower, Lower(EcommerceWords[k]))
  }

  /**
   * `analyze_page_simple`: selling when the page shows an e-commerce word and
   * strictly more than half of the description's words (`matches / len > 0.5`,
   * here `2 * matches > len`); an empty page is rejected with "No content".
   */
  function AnalyzePageSimple(content: string, description: string): (r: Verdict)
    ensures content == [] ==> r == Verdict(false, Note(NoContent))
    ensures content != [] ==>
      r.reason == KeywordReport(CountMatches(Words(Lower(description)), Lower(content)), |Words(Lower(description))|)
    // an empty description never sells
    ensures Words(Lower(description)) == [] ==> !r.selling
    // selling exactly when an e-commerce word shows and strictly more than half the description's words match
    ensures content != [] ==>
      (r.selling <==> HasEcommerce(Lower(content))
                      && 2 * CountMatches(Words(Lower(description)), Lower(content)) > |Words(Lower(description))|)
    ensures r.selling ==> HasEcommerce(Lower(content))
    ensures r.selling ==>
      (exists k :: 0 <= k < |Words(Lower(description))| && Contains(Lower(content), Words(Lower(description))[k]))
  {
    if content == [] then Verdict(false, Note(NoContent))
    else
      var page := Lower(content);
      var keywords := Words(Lower(description));
      var matches := CountMatches(keywords, page);
      Verdict(HasEcommerce(page) && 2 * matches > |keywords|, KeywordReport(matches, |keywords|))
  }

  /** The heuristic ignores letter case in the page and the description. */
  lemma SimpleVerdictIgnoresCase(content: string, description: string)
    ensures AnalyzePageSimple(Upper(content), Upper(description)) == AnalyzePageSimple(content, description)
  {
    LowerOfUpper(content);
    LowerOfUpper(description);
  }

  lemma {:induction false} CountMatchesGrows(keywords: seq<string>, page: string, more: string)
    ensures CountMatches(keywords, page) <= CountMatches(keywords, page + more)
  {
    if keywords != [] {
      var n := |keywords| - 1;
      if Contains(page, keywords[n]) {
        ContainsExtends(page, more, keywords[n]);
      }
      CountMatchesGrows(keywords[..n], page, more);
    }
  }

  /** More text on a page that the heuristic accepts keeps it accepted. */
  lemma SimpleVerdictMonotone(content: string, more: string, description: string)
    requires AnalyzePageSimple(content, description).selling
    ensures AnalyzePageSimple(content + more, description).selling
  {
    LowerConcat(content, more);
    var k :| 0 <= k < |EcommerceWords| && Contains(Lower(content), Lower(EcommerceWords[k]));
    ContainsExtends(Lower(content), Lower(more), Lower(EcommerceWords[k]));
    CountMatchesGrows(Words(Lower(description)), Lower(content), Lower(more));
  }

  /** A non-empty page holding an e-commerce word and every description word is accepted. */
  lemma AllKeywordsSells(content: string, description: string)
    requires content != [] && Words(Lower(description)) != []
    requires HasEcommerce(Lower(content))
    requires forall k :: 0 <= k < |Words(Lower(description))| ==> Contains(Lower(content), Words(Lower(description))[k])
    ensures AnalyzePageSimple(content, description).selling
  {
  }

  /**
   * `WebpageAnalyzer`: uses the LLM exactly when the OpenRouter key is
   * configured (otherwise its `llm` attribute is reset to None).
   */
  class WebpageAnalyzer {
    /** `self.llm` is set. */
    const llmConfigured: bool

    constructor (apiKey: Option<string>)
      ensures llmConfigured == IsAvailable(apiKey)
    {
      llmConfigured := IsAvailable(apiKey);
    }
  }

  /** The verdict a configured or unconfigured analyzer gives each URL. */
  function Judge(llmConfigured: bool, description: string, fetch: string -> PageResponse,
                 llm: (string, string, string) -> Option<string>): string -> Verdict
  {
    url => VerifyUrlSellsFurniture(llmConfigured, url, description, fetch(url), llm)
  }

  /**
   * `verify_url_sells_furniture` of an analyzer whose `llm` is set exactly when
   * `llmConfigured`: "Could not fetch page" when no content came back;
   * otherwise the LLM verdict if the LLM is configured, else the keyword
   * heuristic, on the first 3000 characters of the cleaned page.
   */
  function VerifyUrlSellsFurniture(llmConfigured: bool, url: string, description: string, response: PageResponse,
                                   llm: (string, string, string) -> Option<string>): (r: Verdict)
    ensures r.selling ==> response.Page? && response.statusCode == 200
    ensures FetchPageContent(response, DefaultMaxLength) in {None, Some("")} ==>
      r == Verdict(false, Note(CouldNotFetch))
    ensures FetchPageContent(response, DefaultMaxLength) !in {None, Some("")} ==>
      var content := FetchPageContent(response, DefaultMaxLength).value;
      r == if llmConfigured then AnalyzePageWithLlm(true, content, llm(content, description, url))
           else AnalyzePageSimple(content, description)
  {
    var content := FetchPageContent(response, DefaultMaxLength);
    if content.None? || content.value == [] then Verdict(false, Note(CouldNotFetch))
    else if llmConfigured then AnalyzePageWithLlm(true, content.value, llm(content.value, description, url))
    else AnalyzePageSimple(content.value, description)
  }

  /** The selling URLs of `urls` with their reasons, in order. */
  function Verified(urls: seq<string>, verdict: string -> Verdict): (r: seq<CheckedUrl>)
    ensures |r| <= |urls|
  {
    if urls == [] then []
    else
      var u := urls[|urls| - 1];
      Verified(urls[..|urls| - 1], verdict) + (if verdict(u).selling then [CheckedUrl(u, verdict(u).reason)] else [])
  }

  /**
   * Every URL kept was judged to sell and carries its verdict's reason, and
   * every URL judged to sell is kept.
   */
  lemma {:induction false} VerifiedSpec(urls: seq<string>, verdict: string -> Verdict)
    ensures forall k :: 0 <= k < |Verified(urls, verdict)| ==>
      var c := Verified(urls, verdict)[k];
      c.url in urls && verdict(c.url).selling && c.reason == verdict(c.url).reason
    ensures forall j :: 0 <= j < |urls| && verdict(urls[j]).selling ==>
      exists k :: 0 <= k < |Verified(urls, verdict)| && Verified(urls, verdict)[k].url == urls[j]
    decreases |urls|
  {
    if urls != [] {
      var init := urls[..|urls| - 1];
      var u := urls[|urls| - 1];
      var prior := Verified(init, verdict);
      var r := Verified(urls, verdict);
      VerifiedSpec(init, verdict);
      assert r == prior + (if verdict(u).selling then [CheckedUrl(u, verdict(u).reason)] else []);
      assert forall j :: 0 <= j < |init| ==> init[j] == urls[j];
      forall k | 0 <= k < |r|
        ensures r[k].url in urls && verdict(r[k].url).selling && r[k].reason == verdict(r[k].url).reason
      {
        if k < |prior| {
          assert r[k] == prior[k];
        }
      }
      forall j | 0 <= j < |urls| && verdict(urls[j]).selling
        ensures exists k :: 0 <= k < |r| && r[k].url == urls[j]
      {
        if j < |init| {
          var k :| 0 <= k < |prior| && prior[k].url == init[j];
          assert r[k] == prior[k];
        } else {
          assert r[|r| - 1].url == urls[j];
        }
      }
    }
  }

  lemma VerifiedSnoc(urls: seq<string>, u: string, verdict: string -> Verdict)
    ensures Verified(urls + [u], verdict)
            == Verified(urls, verdict) + (if verdict(u).selling then [CheckedUrl(u, verdict(u).reason)] else [])
  {
    assert (urls + [u])[..|urls|] == urls;
  }

  /** The loop of `filter_relevant_results`: each URL in order goes to `relevant` or `rejected`. */
  method SortByVerdict(toCheck: seq<string>, verdict: string -> Verdict)
    returns (relevant: seq<CheckedUrl>, ghost rejected: seq<CheckedUrl>)
    ensures relevant == Verified(toCheck, verdict)
    ensures |relevant| + |rejected| == |toCheck|
  {
    relevant := [];
    rejected := [];
    var i := 0;
    while i < |toCheck|
      invariant 0 <= i <= |toCheck|
      invariant relevant == Verified(toCheck[..i], verdict)
      invariant |relevant| + |rejected| == i
    {
      var url := toCheck[i];
      var v := verdict(url);
      VerifiedSnoc(toCheck[..i], url, verdict);
      assert toCheck[..i + 1] == toCheck[..i] + [url];
      if v.selling {
        relevant := relevant + [CheckedUrl(url, v.reason)];
      } else {
        rejected := rejected + [CheckedUrl(url, v.reason)];
      }
      i := i + 1;
    }
    assert toCheck[..i] == toCheck;
  }

  /**
   * `filter_relevant_results`: verifies the first `max_analyze` URLs in order
   * and returns those that sell, each with its reason; `rejected` holds the rest.
   */
  method FilterRelevantResults(apiKey: Option<string>, urls: seq<string>, description: string, maxAnalyze: int,
                               fetch: string -> PageResponse, llm: (string, string, string) -> Option<string>)
    returns (relevant: seq<CheckedUrl>, ghost rejected: seq<CheckedUrl>)
    ensures relevant == Verified(SlicePrefix(urls, maxAnalyze), Judge(IsAvailable(apiKey), description, fetch, llm))
    ensures |relevant| + |rejected| == |SlicePrefix(urls, maxAnalyze)|
    ensures maxAnalyze >= 0 ==> |relevant| <= maxAnalyze
  {
    var analyzer := new WebpageAnalyzer(apiKey);
    var toCheck := SlicePrefix(urls, maxAnalyze);
    relevant, rejected := SortByVerdict(toCheck, Judge(analyzer.llmConfigured, description, fetch, llm));
  }
}
