# laodeai and poll digest, modelled in Dafny

This project models two services of a Telegram group bot.

**`/laodeai <query>`** searches the web for the query and answers in the chat.
- A failed search gets an error reply.
- A zero-click answer is sent as HTML.
- Otherwise the result links are parsed and kept only when their hostname,
  with `www.` removed, is in an allowlist of 45 sites. The allowlist maps each
  site to one of 10 content handlers; 36 of the sites share the Stack
  Exchange handler.
- The kept links are then tried in order (`goThroughURLs`):
  - a page that does not answer 200 is skipped;
  - a handler that cannot read its page is skipped, except on the last link,
    where the chain gives up;
  - the first readable page ends the chain.
- The answer is sent as an image of its first 3000 characters, or as
  sanitized HTML text. Long image answers also go to a paste service and get
  a "Read more on:" caption. Long text answers are cut at 500 characters and
  get a "See more on:" link.
- When the search worked but no answer comes out, the reply is an apology:
  - at most one search result;
  - no allowlisted link;
  - every link skipped;
  - the last link's handler could not read its page.

  A failed search gets its own error reply instead. A rejected page fetch or
  an unparsable result link makes the command throw, and it sends nothing.

**Poll digest.** When a poll is posted in the home supergroup, the bot keeps
a per-chat, per-day digest in a cache: quiz and survey lists of links to the
polls.
- The first poll of a day starts a fresh digest, which is sent as a new
  message and pinned.
- Each later poll that day appends to the digest and edits the pinned
  message.
- A message that is not a poll in a supergroup is passed on to the next
  middleware. A poll in another supergroup is ignored.

Modules:
- `Wrappers`: `Option`.
- `JsString`: the JavaScript string operations the code relies on:
  - `split` on a character and `join`, with both round trips proved;
  - `replace` of the first occurrence of a string;
  - the first line of a text;
  - `String`/`Number` on message ids.
- `Sources`: the handler registry, the hostname lookup, and the filter.
- `Resolver`: `goThroughURLs`, as a method with a loop. It is proved against
  the recursive reference definition `Resolve`.
- `Output`: `sendImage` and `sendText`.
- `Laodeai`: the command's dispatch, as a method whose outcome is stated per
  branch.
- `PollDigest`: the digest value and the rendered message.
- `Poll`: one poll as a pure step on a cache snapshot, a run of polls, the
  cache as a class whose method performs the step in place, and the
  register guard.

The page fetches, the site handlers, `sanitize`, `trimHtml` and the paste
upload are function-valued parameters (`Web`, `Formatting`). The search
engine's result page is an input value (`SearchPage`). Image rendering is not
modelled: a photo is recorded as the text it would be rendered from. The
clock, the date header, the chat's username and the id Telegram gives a new
message are inputs (`Env`).

Behaviours of the code worth knowing, which the model keeps:
- The filter removes the *first* `www.` anywhere in the hostname, not only a
  leading one. So `gist.github.www.com` is accepted as the gist site
  (`Sources.InnerWwwAccepted`).
- A request that times out or fails rejects the fetch inside the loop. The
  whole command then throws and sends nothing. The chain does not move on to
  the next link.
- A result link that does not parse as a URL throws while the links are
  mapped, before the filter runs. It is not silently dropped.
- With at most one search result the command always apologises, because the
  `.no-results` lookup yields an array, which is always truthy.
- The `!validSources` guard never fires, because an array is always truthy.
  An empty filtered list reaches the loop, which returns nothing, and that
  ends in the apology.
- A cache with no date reads as the epoch (`new Date(null)`). A missing
  pinned id reads as message 0 (`Number(null)`).

## Model

| member | source | states |
|---|---|---|
| Sources.Registry | src/services/laodeai/index.js:23-73 | the 45 allowlisted hosts, each with its handler; `Lookup` is the only way it is read |
| Sources.Lookup | src/services/laodeai/index.js:23-73 | a link has a handler exactly when its registry key is one of the 45 allowlisted hosts, and the handler is the one registered under that key |
| Sources.RegistryKey | src/services/laodeai/index.js:161 | the key is the hostname with its first `www.` removed; characterised by `LeadingWwwStripped`, `HostWithoutWww` and `InnerWwwAccepted` |
| Sources.LeadingWwwStripped | src/services/laodeai/index.js:161 | a leading `www.` is dropped from the registry key |
| Sources.HostWithoutWww | src/services/laodeai/index.js:161 | a hostname containing no `www.` is its own registry key |
| Sources.InnerWwwAccepted | src/services/laodeai/index.js:161 | the first `www.` is removed wherever it is, so `gist.github.www.com` reaches the gist handler |
| Sources.ParseAll | src/services/laodeai/index.js:156-160 | the links parse exactly when every result's link parses, and then they are the results' links in order |
| Sources.Filter | src/services/laodeai/index.js:161 | the kept links are exactly the input links that pass the test, and there are no more of them than inputs |
| Sources.FilterValid | src/services/laodeai/index.js:156-161 | the kept links are exactly the input links whose key is registered |
| Sources.FilterAppend | src/services/laodeai/index.js:161 | filtering distributes over concatenation, so order is kept |
| Sources.FilterValidAppend | src/services/laodeai/index.js:156-161 | the allowlist filter keeps order, link by link |
| Sources.FilterKeepsKnown | src/services/laodeai/index.js:161 | when every link passes, the filter returns the list unchanged |
| Sources.NoKnownFiltersToEmpty | src/services/laodeai/index.js:161-165 | when no link passes, the filter returns the empty list |
| Resolver.Try | src/services/laodeai/index.js:202-217 | one candidate: a rejected fetch throws, a non-200 page is skipped, an unregistered link throws, otherwise its handler reads the page; `Visit` is proved to compute it, and `TryRegistered` gives the registered case |
| Resolver.Resolve | src/services/laodeai/index.js:199-229 | the reference chain over the candidates; characterised by `StopsAtFirstDecisive` and `NoDecisiveCandidate`, and equal to what `GoThroughUrls` computes |
| Resolver.Hrefs | src/services/laodeai/index.js:201-202 | the fetched links are the candidates' hrefs, position by position |
| Resolver.StopsAtFirstDecisive | src/services/laodeai/index.js:200-227 | the chain ends at the first candidate that throws or yields content; it has fetched exactly the candidates up to and including that one |
| Resolver.NoDecisiveCandidate | src/services/laodeai/index.js:200-229 | with no decisive candidate, every candidate is fetched; the chain gives up if the last answered 200, and otherwise returns nothing |
| Resolver.TryRegistered | src/services/laodeai/index.js:213-217 | a registered link that answers 200 is read by its own handler from the registry |
| Resolver.MoveOn | src/services/laodeai/index.js:213-224 | skipping a non-200 page, or a handler error that is not on the last link, leaves the chain's outcome unchanged |
| Resolver.StopAt | src/services/laodeai/index.js:202-227 | at a candidate where the loop returns, the chain ends with the throw, the error or the content found there |
| Resolver.HrefsSnoc | src/services/laodeai/index.js:200-202 | one more iteration fetches the next candidate's href, in order |
| Resolver.Visit | src/services/laodeai/index.js:201-217 | one iteration's fetch, status check and handler call agree with the reference step `Try`; content is extracted only for a registered link |
| Resolver.GoThroughUrls | src/services/laodeai/index.js:199-229 | the loop returns the same result, after fetching the same links in the same order, as the reference chain `Resolve` |
| Output.TooLong | src/services/laodeai/index.js:82 | the overflow test for image answers; `TooLongByNewlines` restates it in newline counts |
| Output.Truthy | src/services/laodeai/index.js:90 | when `fullCode || result.url` takes the paste link; used by `SendImage`'s caption clause |
| Output.TooLongByNewlines | src/services/laodeai/index.js:82 | more than 190 `split` lines means at least 190 newline characters |
| Output.SendImage | src/services/laodeai/index.js:81-92 | the rendered text is the first `min(length, 3000)` characters; the full text is uploaded exactly when it is too long; the caption is non-empty exactly then, and links the paste or else the page |
| Output.ShortImageWhole | src/services/laodeai/index.js:81-92 | an answer within both limits is rendered whole, with an empty caption and no upload |
| Output.LongImageOverflows | src/services/laodeai/index.js:82-90 | a 4000-character answer is cut at 3000 and uploaded; a failed upload falls back to the page link |
| Output.SendText | src/services/laodeai/index.js:101-105 | the message text; characterised by `UntrimmedVerbatim`, `ShortTextVerbatim`, `TrimmedShape` and `TrimmedLength` |
| Output.UntrimmedVerbatim | src/services/laodeai/index.js:101-103 | without trimming, the message is the sanitized content |
| Output.ShortTextVerbatim | src/services/laodeai/index.js:102-103 | sanitized content of at most 500 characters is sent as it is |
| Output.TrimmedShape | src/services/laodeai/index.js:103-104 | longer trimmed content is the trimmed HTML, the "See more on" separator, then the page link |
| Output.TrimmedLength | src/services/laodeai/index.js:103-104 | if the HTML trimmer returns 500 characters, the message has exactly that length plus the separator and the link, and ends with the link |
| Laodeai.Apology | src/services/laodeai/index.js:119-123 | `sendError`: the fixed apology reply after the search ran; `Deliver` and `Answer` say when it is the outcome |
| Laodeai.Deliver | src/services/laodeai/index.js:167-191 | a chain that threw sends nothing; one that gave up or found nothing apologises; a text result is sent as the trimmed `sendText` message, with no upload; an image result is sent as `sendImage`'s rendering and caption; the answer is uploaded exactly when it is a too-long image |
| Laodeai.Answer | src/services/laodeai/index.js:129-192 | no query does nothing; a failed search gets the error reply; a zero-click answer is sent as untrimmed text; at most one result apologises; an unparsable link throws; otherwise the allowlisted links go through the chain; none allowlisted means the apology without any fetch |
| JsString.Split | src/services/laodeai/index.js:82 | `split` yields at least one part, and no part contains the separator |
| JsString.SplitCount | src/services/laodeai/index.js:82 | `split` yields one more part than there are separators |
| JsString.Join | src/services/poll/index.js:41-43 | `.join('\n')`; `SplitJoin` and `JoinSplit` make it the inverse of `Split` |
| JsString.SplitJoin | src/services/poll/index.js:41-43 | splitting a join of separator-free parts gives the parts back |
| JsString.JoinSplit | src/services/poll/index.js:41-43 | joining a split gives the text back |
| JsString.SplitAround | src/services/poll/index.js:38-43 | splitting at a separator is splitting each side and concatenating |
| JsString.FirstLine | src/services/poll/index.js:30 | the first line is a prefix of the question without a newline; it stops at the first newline, or is the whole question |
| JsString.IndexOf | src/services/laodeai/index.js:161 | the index found is the first occurrence from the start point; `None` means there is no occurrence |
| JsString.ReplaceFirst | src/services/laodeai/index.js:161 | `replace` with a string pattern; characterised by `ReplaceFirstSpec` |
| JsString.ReplaceFirstSpec | src/services/laodeai/index.js:161 | `replace` of a string changes nothing when it does not occur, and otherwise replaces only its first occurrence |
| JsString.FirstOccurrence | src/services/laodeai/index.js:161 | an occurrence with none before it is the one found |
| JsString.NoOccurrenceBefore | src/services/laodeai/index.js:161 | a string cannot occur before the first position of its first character |
| JsString.DecimalString | src/services/poll/index.js:71 | `String` of a message id is a decimal numeral with no leading zero, `"0"` for zero |
| JsString.ParseDecimal | src/services/poll/index.js:47 | `Number` of a stored id string; `ParseDecimalString` makes it the inverse of `DecimalString` |
| JsString.ParseDecimalString | src/services/poll/index.js:47 | `Number` of the stored `String` of an id gives the id back |
| PollDigest.Link | src/services/poll/index.js:41-43 | the link template for one entry; `LinkSingleLine` keeps it on one line and `Links` applies it entry by entry |
| PollDigest.Links | src/services/poll/index.js:41-43 | one link per entry, in order, to the chat link and the entry's poll id |
| PollDigest.LinkSingleLine | src/services/poll/index.js:41-43 | a link to a single-line question is a single line |
| PollDigest.JoinedLinks | src/services/poll/index.js:41-43 | the joined links split back into one line per link |
| PollDigest.SplitGlueLine | src/services/poll/index.js:38-43 | a single line glued to the rest is that line followed by the rest's lines |
| PollDigest.SplitGlueLinks | src/services/poll/index.js:41-43 | a joined link section glued to the rest is the link lines followed by the rest's lines |
| PollDigest.SectionLines | src/services/poll/index.js:40-43 | a section is a blank line, its title, and its link lines |
| PollDigest.Render | src/services/poll/index.js:38-43 | the digest message; its line structure is `RenderLines` |
| PollDigest.RenderLines | src/services/poll/index.js:38-43 | the message is the date line, a blank line, "Quiz", the quiz links, a blank line, "Survey", the survey links and a final empty line |
| Poll.EntryOf | src/services/poll/index.js:29-33 | a stored entry's text is a single line |
| Poll.NextDigest | src/services/poll/index.js:23-33 | the digest restarts empty when the cache has none or its date is not today; a regular poll is appended to the survey, a quiz to the quiz list, anything else to neither |
| Poll.DayOf | src/services/poll/index.js:25 | `new Date(lastPollDate)` as a day, with an absent date read as the epoch; used by `StartsFresh` |
| Poll.StoredId | src/services/poll/index.js:47 | `Number(lastPinnedMessage)`, 0 when absent; `NewMessagePath` and `OneMessagePerDay` show it reads back the id that was stored |
| Poll.StartsFresh | src/services/poll/index.js:25 | the reset test; how it relates to the edit test is `FreshVersusPinned` |
| Poll.EditsPinned | src/services/poll/index.js:45 | the edit test; how it relates to the reset test is `FreshVersusPinned` |
| Poll.FreshVersusPinned | src/services/poll/index.js:25-45 | when the edit test holds, the digest restarts only if no content is stored; a kept digest with a stored date is edited; a stored date other than today both restarts the digest and sends a new message |
| Poll.Step | src/services/poll/index.js:14-81 | one poll keeps the cache well formed, always stores the next digest, and makes one call when editing and two otherwise |
| Poll.NewMessagePath | src/services/poll/index.js:59-80 | without today's digest pinned, the rendered digest is sent, then its id, the digest and today's date are stored, then it is pinned; the stored id reads back as the new message's id |
| Poll.NewDayQuiz | src/services/poll/index.js:25-80 | a quiz on any day other than the stored one makes a digest with just that quiz; its rendering is sent as a new message, which is stored, dated today and pinned |
| Poll.SameDayEdits | src/services/poll/index.js:45-56 | a later poll on the same day edits the stored message with the rendered digest and writes only the digest |
| Poll.StepMessageLines | src/services/poll/index.js:38-60 | every message a poll sends or edits is, line by line, the date header, a blank line, "Quiz", the quiz links, a blank line, "Survey", the survey links and a final empty line, also for digests read back from the cache |
| Poll.Run | src/services/poll/index.js:14-81 | any sequence of polls keeps the cache well formed |
| Poll.PinsAppend | src/services/poll/index.js:77 | pins of two action runs add up |
| Poll.SameDayDigest | src/services/poll/index.js:23-76 | after polls all on one day, the digest is the day's starting digest with that day's surveys and quizzes appended in arrival order, dated that day |
| Poll.OneMessagePerDay | src/services/poll/index.js:45-80 | over one day's polls, at most one message is pinned, every edit targets that day's message, and its id is what the cache holds |
| Poll.RouteOf | src/services/poll/index.js:90-98 | a message goes on to the next handler exactly when it is not a poll in a supergroup; it is handled exactly when it is one and the chat is the home group |
| Poll.PollStore.Stored | src/services/poll/index.js:18-23 | the three cache keys read back as a well-formed snapshot: a decimal id and single-line entries |
| Poll.PollStore.constructor | src/services/poll/index.js:15 | the cache starts empty, with no calls made |
| Poll.PollStore.HandlePollMessage | src/services/poll/index.js:14-81 | the cache afterwards holds the step's next snapshot; the calls made are the step's actions; the digest is always written; id and date are written only when a new message is sent |
| Poll.PollStore.OnMessage | src/services/poll/index.js:90-98 | passes on exactly the messages that are not supergroup polls; changes nothing unless it handles the poll; handling is one step, which rewrites only the chat's own keys, and its id and date only when a new message is sent |

## Left out

- The HTTP client, the search engine query and parsing the result page with
  `cheerio` are not modelled. The search page is an input (`SearchPage`);
  each result is a parsed link or a parse failure.
- Page fetches are a function of the link: a link that appears twice among
  the candidates gets the same answer both times. The code fetches it again,
  and the second answer can differ; such runs are not modelled.
- The search request (`fetchDDG`) cannot reject in this model: the search
  page always arrives with some status. Only the fetches of result pages
  can reject (`Response.Thrown`).
- `cleanURL`, `decodeURIComponent` and the WHATWG `URL` parser are not part of
  this model. A link is given with its `href` and `hostname`.
- The site handlers and `zeroclick` are not part of this model.
  - Their extraction is an abstract function (`Web.extract`).
  - A handler's own `url` field, which would override the link spread before
    it, is not modelled: the answer's link is always the fetched href.
  - The zero-click answer's `url` is not modelled, because untrimmed text
    never uses it.
- `sanitize`, `trimHtml` and `makeRequest` (the paste upload) are abstract
  function parameters (`Formatting`). `generateImage` is not modelled: the
  photo is recorded as the text it would be rendered from.
- Output.TrimmedLength: the 500-character bound on trimmed text relies on the
  trimmer returning exactly 500 characters. That is a precondition, because
  the trimmer is not modelled.
- Logging (`logger.fromContext`) is left out, and so is its `message_id` and
  caption bookkeeping. It has no effect on what is sent or stored.
- The Redis client, the JSON encoding of the digest, and `Temporal` date
  arithmetic are not modelled.
  - The cache is three maps.
  - Dates are day numbers.
  - The Jakarta-time date header is an input.
- Concurrency is not modelled. Two polls processed at once could both see
  "no message today"; the model handles polls one after another.
- String lengths count characters, not UTF-16 code units.
- The registry is a map. Keys inherited from `Object.prototype` (such as
  `constructor`), which the JavaScript lookup would also find, are not
  modelled.
- Telegram sends, edits and pins are recorded as actions and do not fail.
- `isHomeGroup` is an input bit of the incoming message.
- The default export and the bot registration's return value (`[]`) are not
  modelled.
