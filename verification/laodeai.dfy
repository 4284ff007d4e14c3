/** The `/laodeai` command: search, pick the first readable allowlisted
    result, and answer in the chat. */
module Laodeai {
  import opened Wrappers
  import opened Sources
  import opened Resolver
  import opened Output

  const SearchErrorText := "Error getting search result."
  const ApologyText := "Uhh, I don't have an answer for that, sorry."

  /** The search engine's page for the query: its status, the zero-click
      answer (empty when there is none), and for every `.web-result` element the
      link parsed from its title anchor (`None` where `new URL` throws). */
  datatype SearchPage = SearchPage(status: int, zeroClick: string, results: seq<Option<Url>>)

  /** The one chat message a command produces, if any. */
  datatype Sent =
    | Nothing
    | Reply(text: string)                        // context.reply
    | Message(html: string)                      // sendMessage, HTML, no link preview
    | PhotoSent(rendered: string, caption: string)  // sendPhoto of the rendered text

  /** Everything observable about one command: whether the search ran, the
      result pages fetched in order, the text sent to the paste service, the
      message, and whether an exception escaped the handler. */
  datatype Outcome = Outcome(
    searched: bool, fetched: seq<string>, uploaded: Option<string>, sent: Sent, threw: bool)

  /** `sendError` after the search ran and `fetched` pages were fetched. */
  function Apology(fetched: seq<string>): Outcome
  {
    Outcome(true, fetched, None, Reply(ApologyText), false)
  }

  /** The `if (!result)` test and the `switch (result.type)` after the chain. */
  function Deliver(chain: Chain, fmt: Formatting): (o: Outcome)
    ensures o.searched && o.fetched == chain.fetched
    ensures o.threw <==> chain.result.Aborted?
    ensures o.sent.Nothing? <==> chain.result.Aborted?
    ensures chain.result.GaveUp? || chain.result.NoResult? ==> o == Apology(chain.fetched)
    ensures o.sent.PhotoSent? <==> chain.result.Resolved? && chain.result.result.ImageResult?
    ensures o.sent.Message? <==> chain.result.Resolved? && chain.result.result.TextResult?
    ensures o.uploaded.Some? ==> o.sent.PhotoSent? && TooLong(chain.result.result.content)
    ensures chain.result.Resolved? && chain.result.result.TextResult? ==>
      o.sent == Message(SendText(chain.result.result.content, chain.result.url, true, fmt)) && o.uploaded == None
    ensures chain.result.Resolved? && chain.result.result.ImageResult? ==>
      var p := SendImage(chain.result.result.content, chain.result.url, fmt);
      o.sent == PhotoSent(p.rendered, p.caption) && o.uploaded == p.uploaded
    ensures chain.result.Resolved? && chain.result.result.ImageResult? && TooLong(chain.result.result.content) ==>
      o.uploaded == Some(chain.result.result.content)
  {
    match chain.result
    case Aborted => Outcome(true, chain.fetched, None, Nothing, true)
    case GaveUp => Apology(chain.fetched)
    case NoResult => Apology(chain.fetched)
    case Resolved(url, TextResult(content)) =>
      Outcome(true, chain.fetched, None, Message(SendText(content, url, true, fmt)), false)
    case Resolved(url, ImageResult(content)) =>
      var photo := SendImage(content, url, fmt);
      Outcome(true, chain.fetched, photo.uploaded, PhotoSent(photo.rendered, photo.caption), false)
    case Resolved(_, ErrorResult) => Apology(chain.fetched)
  }

  /** The search ran and neither the zero-click answer nor the result count
      stopped the command. */
  predicate ReachesResults(query: string, page: SearchPage)
  {
    query != "" && page.status == 200 && page.zeroClick == "" && |page.results| > 1
  }

  /** Every result link parsed and none has a handler. */
  predicate NoneKnown(results: seq<Option<Url>>)
  {
    forall i :: 0 <= i < |results| ==> results[i].Some? && !Known(results[i].value)
  }

  /** `laodeai`: the early-exit checks in the order the handler makes them. */
  method Answer(query: string, page: SearchPage, web: Web, fmt: Formatting) returns (o: Outcome)
    ensures query == "" ==> o == Outcome(false, [], None, Nothing, false)
    ensures query != "" ==> o.searched
    ensures query != "" && page.status != 200 ==>
      o == Outcome(true, [], None, Reply(SearchErrorText), false)
    ensures query != "" && page.status == 200 && page.zeroClick != "" ==>
      o == Outcome(true, [], None, Message(fmt.sanitize(page.zeroClick)), false)
    ensures query != "" && page.status == 200 && page.zeroClick == "" && |page.results| <= 1 ==>
      o == Apology([])
    ensures ReachesResults(query, page) && ParseAll(page.results).None? ==>
      o == Outcome(true, [], None, Nothing, true)
    ensures ReachesResults(query, page) && ParseAll(page.results).Some? ==>
      o == Deliver(Resolve(FilterValid(ParseAll(page.results).value), web), fmt)
    ensures ReachesResults(query, page) && ParseAll(page.results).Some? && NoneKnown(page.results) ==>
      o == Apology([])
  {
    if query == "" {
      return Outcome(false, [], None, Nothing, false);
    }
    if page.status != 200 {
      return Outcome(true, [], None, Reply(SearchErrorText), false);
    }
    if page.zeroClick != "" {
      // the zero-click link is only read when trimming, which is off here
      UntrimmedVerbatim(page.zeroClick, "", fmt);
      return Outcome(true, [], None, Message(SendText(page.zeroClick, "", false, fmt)), false);
    }
    // `$(sources[0]).find('.no-results').get()` is an array, always truthy
    if |page.results| <= 1 {
      return Apology([]);
    }
    var parsed := ParseAll(page.results);
    if parsed.None? {
      return Outcome(true, [], None, Nothing, true);
    }
    var valid := FilterValid(parsed.value);
    if NoneKnown(page.results) {
      NoKnownFiltersToEmpty(parsed.value, Known);
    }
    // `!validSources` tests an array, always truthy: an empty list goes on
    var result, fetched := GoThroughUrls(valid, web);
    o := Deliver(Chain(result, fetched), fmt);
  }
}
