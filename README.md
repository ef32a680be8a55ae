# RSS relay — a verified model of its pure core

The relay is a small Express service. `GET /api/rss?url=…` fetches a feed,
parses it as XML and answers with a JSON record: the channel title and one
entry per `<item>`, with an id, a title, the description as content, the
publication date, the link, the source URL, the URL captured by the first
match of the image pattern in the description, and a cache timestamp. `GET /api/image-proxy?url=…` fetches an
image and streams its bytes back with caching and cross-origin headers. Before
either endpoint makes its one upstream request, it checks the `url` query
parameter.

This project models the logic that sits between that I/O, as Dafny datatypes,
functions and lemmas:

- `wrappers.dfy` (module `Wrappers`): `Option`, used for absent parameters,
  absent elements and `null`.
- `js_text.dfy` (module `JsText`): JavaScript's `String.prototype.trim`, with
  the exact ECMAScript whitespace set, and the decimal rendering of a
  non-negative integer in a template literal. Both come with a partner:
  trimming is proved unique (`TrimUnique`), and rendering is proved to read
  back (`DecimalRoundTrip`).
- `image_src.dfy` (module `ImageSrc`): the regular expression
  `/<img[^>]+src="([^"]+)"/i`. A match is described by three positions (`IsMatch`).
  The match JavaScript reports is the one that starts leftmost and, because the
  greedy `[^>]+` backtracks from the right, has the rightmost `src="` for
  that start (`Chosen`). `FindMatch` and `ImageUrl` compute this by
  recursion, and their contracts show they return exactly that match, or
  `None` when there is no match.
- `feed.dfy` (module `Feed`): the projection of an already parsed feed onto
  the response record, with the `?.textContent || default` rules.
- `relay.dfy` (module `Relay`): the status ladder of both endpoints, the
  error bodies, the `HTTP error! status: <n>` message and the image headers.

Effects are parameters:
- The upstream GET is `fetch: string -> Fetched<…>`: a failed request with
  its error message, or a status with a body.
- The WHATWG URL parser's verdict is `parses: string -> bool`.
- `Date.now()` is `clock: nat -> int`, the reading taken while item `i` is
  projected. The source reads the clock once per item, inside the `map`
  callback.
- A reply that does not depend on `fetch` is one for which no upstream
  request is made. The lemmas `RssRejectionIsLocal` and
  `ImageRejectionIsLocal` state this for every rejected request.

Points where the model is more exact than a casual reading of the code:
- A description whose first `<img` has no `src="` is not given up on. The
  regular expression moves on to the next `<img`, and so does the model. The
  pattern is not limited to the first `<img>` tag.
- Inside one tag, the `src="` that wins is the last one before the first
  `>` that is followed by a non-empty value without `"` and a closing `"`.
  A `src="` directly after `<img` never wins, because `[^>]+` needs at least
  one character. In `<img src="a" data-src="b">` the URL is `b`, because
  `data-src="` ends in `src="`. In `<img src="a" data-src="">` it is `a`,
  because the later value is empty.
- Case folding under the `i` flag, without `u`, never maps a non-ASCII
  character to an ASCII one. So the literals `<img` and `src="` match
  ASCII case-insensitively only.
- The title is the placeholder 无标题 when the title element is missing or
  empty. It is also the placeholder when the raw title trims to 无标题 itself.
  A whitespace-only title gives the empty string (`Feed.TitleRule`).
- `|| ''` on the description, date and link only replaces `''` by `''`.
  Those fields are therefore the raw texts, or `''` when the element is
  missing. The description is not trimmed.

## Model

| member | source | states |
|---|---|---|
| `JsText.Trim` | server.js:53 | `trim()` gives a middle part of its input with whitespace only before and after it, and no whitespace at either end of the result |
| `JsText.TrimUnique` | server.js:67 | whenever a string splits into whitespace, a trimmed middle and whitespace, `trim()` returns that middle, so `Trim` is fully determined by its contract |
| `JsText.TrimIdempotent` | server.js:67 | trimming twice is trimming once |
| `JsText.TrimOfTrimmed` | server.js:67 | a string with no whitespace at either end is left unchanged |
| `JsText.TrimEmptyIff` | server.js:67 | `trim()` gives `''` exactly for whitespace-only input |
| `JsText.Decimal` | server.js:66 | `${index}` is a non-empty string of decimal digits with no leading zero |
| `JsText.DecimalRoundTrip` | server.js:66 | reading the digits of `${n}` back gives `n` |
| `JsText.DecimalInjective` | server.js:66 | distinct numbers render as distinct strings |
| `JsText.IsJsSpace` | server.js:67 | the characters `trim()` removes: TAB, VT, FF, ZWNBSP, every Unicode space separator (Zs), LF, CR, LS and PS |
| `ImageSrc.SameIgnoringCase` | server.js:61 | under the `i` flag without `u`, a lower-case pattern letter matches itself and its ASCII upper case only; other pattern characters match only themselves (the pattern's literals `<img` and `src="` are written in lower case) |
| `ImageSrc.IsMatch` | server.js:61 | the reference meaning of the pattern: `<img` at one position, at least one non-`>` character, `src="` at a later position, a non-empty run without `"`, then a closing `"` |
| `ImageSrc.Chosen` | server.js:62 | the match `match` reports among all matches: the leftmost start, and for that start the rightmost `src="` (greedy `[^>]+` backtracking from the right) |
| `ImageSrc.FirstFrom` | server.js:61 | the first occurrence of a character at or after a position, or the end of the string when there is none |
| `ImageSrc.CaptureEnd` | server.js:61 | `([^"]+)"` matches at a position exactly when a non-empty quote-free run there is closed by a `"`, and the closing quote is unique |
| `ImageSrc.RightmostSrc` | server.js:61 | the rightmost place in a range where `src="([^"]+)"` matches, or `None` exactly when there is no such place |
| `ImageSrc.MatchFrom` | server.js:61 | from a given `<img`, returns the match with the rightmost `src="`, or `None` exactly when no match starts there |
| `ImageSrc.NoMatchPastClose` | server.js:61 | from an `<img`, the `src="` of a match begins at or before the first `>`, and every `src="` from one character after `<img` up to that point that is followed by a non-empty value without `"` and a closing `"` gives a match |
| `ImageSrc.FirstMatchFrom` | server.js:62 | returns the leftmost match starting at or after a position, with the rightmost `src="` for that start, or `None` exactly when no match starts there |
| `ImageSrc.FindMatch` | server.js:62 | `description.match(imgRegex)`: the match JavaScript reports (leftmost start, then rightmost `src="`), `None` exactly when the pattern matches nowhere |
| `ImageSrc.ImageUrl` | server.js:61-63 | `imageUrl` is `null` exactly when the pattern matches nowhere, and otherwise is the capture group of the reported match |
| `ImageSrc.ChosenUnique` | server.js:62 | the reported match is unique, so `imageUrl` is determined by the description |
| `ImageSrc.ImageUrlShape` | server.js:61-63 | a non-null `imageUrl` is a non-empty, quote-free piece of the description, preceded by `src="` (any case) and followed by `"`, and that `src="` follows an `<img` (any case) with at least one character and no `>` between them |
| `ImageSrc.SingleTag` | server.js:61-63 | `<img src="U">` yields `U` for every non-empty `U` that contains no `"` |
| `Feed.TextOr` | server.js:55-58 | an element's text with a fallback, as the source's optional chaining and `or` default compute it: the text, except that a missing element or an empty text gives the fallback |
| `Feed.ItemId` | server.js:66 | the id is the feed URL, then `-`, then the decimal digits of the index |
| `Feed.ItemTitle` | server.js:55-67 | an item title is 无标题 when the title element is missing or its text is empty, and the trimmed text otherwise |
| `Feed.ProjectItem` | server.js:54-74 | one item's record: its id, title and clock reading, the feed URL as source, and content, pubDate and link equal to the raw texts or `''`; `imageUrl` is the extraction from the content |
| `Feed.ChannelTitle` | server.js:49-53 | the channel title is `''` when the feed has no `channel > title`, and that element's trimmed text otherwise |
| `Feed.Project` | server.js:49-76 | the channel title is the trimmed `channel > title` text, or `''` when it is missing; the items have the same number and order as the feed's items, and item `i` is built from feed item `i` |
| `Feed.ItemIdInjective` | server.js:66 | the id `${url}-${index}` determines the index |
| `Feed.ItemsIdentified` | server.js:54-73 | item `i` has source `url`, id `url + "-" + i` and the clock reading taken for it, and no two items of one response share an id |
| `Feed.TitleRule` | server.js:55-67 | an item's title is 无标题 when the element is missing or empty, its trimmed text otherwise, `''` for whitespace-only text, the placeholder exactly when the title is missing, empty or trims to the placeholder, and never has whitespace at either end |
| `Feed.FieldRule` | server.js:56-68 | content, pubDate and link are the raw texts, untrimmed, or `''` when the element is missing; `imageUrl` is `null` exactly when the content has no match, and otherwise is the reported match's capture |
| `Relay.IsOk` | server.js:38 | `response.ok`: the upstream status lies in 200 to 299 |
| `Relay.HttpErrorMessage` | server.js:39 | the thrown message is `HTTP error! status: ` followed by the decimal digits of the status |
| `Relay.RssFailure` | server.js:80-85 | the `/api/rss` failure reply: status 500 with the category 获取RSS内容失败 and the error's message |
| `Relay.HttpErrorMessageNamesStatus` | server.js:38-39 | the error message is `HTTP error! status: ` followed by digits that read back as the status, so different statuses give different messages |
| `Relay.CheckUrl` | server.js:18-27 | a request gets past validation exactly when `url` is present, non-empty and parses; a missing or empty `url` is rejected with the "missing" error, and an unparseable one with the "invalid" error |
| `Relay.MissingNeverParsed` | server.js:18-19 | a missing or empty `url` is rejected whatever the URL parser would say |
| `Relay.HandleRss` | server.js:14-86 | `/api/rss` answers 400 exactly on a validation failure, 200 with the projected feed exactly when the upstream reply is ok and parses, and otherwise 500 with the category 获取RSS内容失败 and the error's message: the network failure's message, `HTTP error! status: n` for a non-ok status `n`, or the read or parse error's message for an ok reply whose body cannot be read or parsed |
| `Relay.RssRejectionIsLocal` | server.js:18-27 | a rejected `/api/rss` request gets its 400 reply whatever the upstream and the clock would do, so no fetch happens; a missing or empty `url` never reaches the URL parser |
| `Relay.RssUpstreamError` | server.js:38-85 | a non-ok upstream status `n` yields 500 with the message `HTTP error! status: n`, whatever the response body |
| `Relay.ImageHeaders` | server.js:119-128 | Content-Type is the upstream header, or `image/jpeg` when it is absent or empty, and never empty; Cache-Control is `public, max-age=86400`; the CORS headers are `*`, `GET` and `Content-Type` |
| `Relay.ImageFailure` | server.js:133-138 | the `/api/image-proxy` failure reply: status 500 with the category 获取图片失败 and the error's message |
| `Relay.HandleImage` | server.js:90-139 | `/api/image-proxy` answers 400 exactly on a validation failure, streams the upstream bytes unchanged with status 200 and the image headers exactly when the upstream reply is ok, and otherwise answers 500 with the category 获取图片失败 and the error message |
| `Relay.ImageRejectionIsLocal` | server.js:94-103 | a rejected `/api/image-proxy` request gets its 400 reply whatever the upstream would do; a missing or empty `url` never reaches the URL parser |

## Left out

- Express wiring: `cors()`, `express.json()`, `app.listen`, the `PORT` default of 3001 and console logging. This is runtime plumbing with no decision in it. The `Access-Control-Allow-Origin` header that `cors()` adds to every reply is not modelled either.
- Express's `res.set` appends `; charset=…` to a `text/*`, JavaScript or JSON Content-Type that has none. `Relay.ImageHeaders` states the value passed to `res.set`, not this Express rewrite, since Express is not part of this model.
- The network client `node-fetch`: the 10-second timeout, the User-Agent and referrer-policy headers, and the `Referer` header `new URL(url).origin` (a WHATWG URL Standard computation). The upstream appears only as a `Fetched` outcome.
- URL syntax (the WHATWG URL Standard, section 4.4 "URL parsing"). It is the parameter `parses`, not re-implemented.
- JSDOM: XML parsing and `querySelector`/`querySelectorAll`. The model takes the extracted element texts (`RawFeed`, `RawItem`). A body that cannot be read or parsed is `Unreadable` with the thrown message.
- `response.body.pipe(res)`: streaming, backpressure, a mid-stream upstream error and client disconnects. The model states that the bytes sent are the upstream bytes.
- `GET /api/health`: it only reads the clock (`new Date().toISOString()`) and returns the constant status `OK`.
- Express query arrays (`?url=a&url=b`). `url` is an optional string.
- `src/main.js`: Vue application and router wiring, with no logic.
- JavaScript strings are UTF-16 code units, and Dafny's `char` is a Unicode scalar value. Lone surrogates cannot be represented. Every character the trim set and the pattern name lies in the Basic Multilingual Plane, so for well-formed text the results agree.
- JsText.Decimal: renders every `n` in plain digits. JavaScript switches to exponent notation from 10^21, which an array index or an HTTP status never reaches.
