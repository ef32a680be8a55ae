/** The request handling of the relay's two proxy endpoints, `/api/rss`
    and `/api/image-proxy`: the validation of the `url` query parameter,
    the one upstream GET, and the status, headers and body of the reply.

    The upstream request is a parameter: `fetch(url)` is what the GET of
    `url` produced. So is URL syntax: `parses(url)` says whether the WHATWG
    URL parser accepts `url`. A reply that does not depend on `fetch` is
    one for which no upstream request is made. */
module Relay {

  import opened Wrappers
  import opened JsText
  import opened Feed

  /** 缺少URL参数 ("URL parameter missing"). */
  const RSS_MISSING: string := "\U{7F3A}\U{5C11}URL\U{53C2}\U{6570}"
  /** 无效的URL格式 ("invalid URL format"). */
  const RSS_INVALID: string := "\U{65E0}\U{6548}\U{7684}URL\U{683C}\U{5F0F}"
  /** 获取RSS内容失败 ("fetching the RSS content failed"). */
  const RSS_FAILED: string := "\U{83B7}\U{53D6}RSS\U{5185}\U{5BB9}\U{5931}\U{8D25}"
  /** 缺少图片URL参数 ("image URL parameter missing"). */
  const IMAGE_MISSING: string := "\U{7F3A}\U{5C11}\U{56FE}\U{7247}URL\U{53C2}\U{6570}"
  /** 无效的图片URL格式 ("invalid image URL format"). */
  const IMAGE_INVALID: string := "\U{65E0}\U{6548}\U{7684}\U{56FE}\U{7247}URL\U{683C}\U{5F0F}"
  /** 获取图片失败 ("fetching the image failed"). */
  const IMAGE_FAILED: string := "\U{83B7}\U{53D6}\U{56FE}\U{7247}\U{5931}\U{8D25}"

  const HTTP_ERROR_PREFIX: string := "HTTP error! status: "
  const DEFAULT_IMAGE_TYPE: string := "image/jpeg"
  const IMAGE_CACHE_CONTROL: string := "public, max-age=86400"

  /** The JSON body of a failed request: `{ error, message? }`. */
  datatype ErrorBody = ErrorBody(error: string, message: Option<string>)

  /** The outcome of the one upstream GET: the request itself failed
      (network error, timeout), with the error's message, or a response
      arrived with a status and a body. */
  datatype Fetched<B> = Failed(reason: string) | Answered(status: nat, body: B)

  /** A feed response body once read and parsed as XML, or the message of
      the error that reading or parsing raised. */
  datatype Document = Parsed(feed: RawFeed) | Unreadable(reason: string)

  /** An image response: its `content-type` header, if sent, and its bytes. */
  datatype Image = Image(contentType: Option<string>, bytes: seq<bv8>)

  datatype RssBody = FeedJson(result: FeedResult) | RssErrorJson(error: ErrorBody)
  datatype RssReply = RssReply(status: nat, body: RssBody)

  datatype ImageReply =
    | Streamed(status: nat, headers: map<string, string>, bytes: seq<bv8>)
    | ImageErrorJson(status: nat, error: ErrorBody)

  /** `response.ok`. */
  predicate IsOk(status: nat)
  {
    200 <= status <= 299
  }

  /** The message of the error thrown for a non-ok upstream status. */
  function HttpErrorMessage(status: nat): (m: string)
    ensures |m| > |HTTP_ERROR_PREFIX| && m[..|HTTP_ERROR_PREFIX|] == HTTP_ERROR_PREFIX
    ensures m[|HTTP_ERROR_PREFIX|..] == Decimal(status)
  {
    HTTP_ERROR_PREFIX + Decimal(status)
  }

  /** The message names the status exactly: it is the fixed prefix followed
      by digits that read back as the status, so two statuses never give
      the same message. */
  lemma HttpErrorMessageNamesStatus(status: nat, other: nat)
    ensures var m := HttpErrorMessage(status);
      && |m| > |HTTP_ERROR_PREFIX|
      && m[..|HTTP_ERROR_PREFIX|] == HTTP_ERROR_PREFIX
      && AllDigits(m[|HTTP_ERROR_PREFIX|..])
      && DecimalValue(m[|HTTP_ERROR_PREFIX|..]) == status
      && (HttpErrorMessage(other) == m ==> other == status)
  {
    var m := HttpErrorMessage(status);
    assert m[|HTTP_ERROR_PREFIX|..] == Decimal(status);
    DecimalRoundTrip(status);
    if HttpErrorMessage(other) == m {
      assert HttpErrorMessage(other)[|HTTP_ERROR_PREFIX|..] == Decimal(other);
      DecimalInjective(other, status);
    }
  }

  /** The outcome of validating the `url` query parameter. */
  datatype Gate = Pass(url: string) | Reject(error: ErrorBody)

  /** The two checks both endpoints make before any upstream request:
      the parameter must be present and non-empty (`!url`), and then it
      must parse as a URL (`new URL(url)`). */
  function CheckUrl(query: Option<string>, parses: string -> bool, missing: string, invalid: string): (r: Gate)
    ensures r.Pass? <==> query.Some? && query.value != "" && parses(query.value)
    ensures r.Pass? ==> r.url == query.value
    ensures query.None? || query.value == "" ==> r == Reject(ErrorBody(missing, None))
    ensures query.Some? && query.value != "" && !parses(query.value) ==> r == Reject(ErrorBody(invalid, None))
  {
    match query
    case None => Reject(ErrorBody(missing, None))
    case Some(url) =>
      if url == "" then Reject(ErrorBody(missing, None))
      else if !parses(url) then Reject(ErrorBody(invalid, None))
      else Pass(url)
  }

  /** A missing or empty parameter is rejected before URL syntax is looked
      at: the outcome is the same whatever the URL parser would say. */
  lemma MissingNeverParsed(query: Option<string>, parses: string -> bool, parses': string -> bool, missing: string, invalid: string)
    requires query.None? || query.value == ""
    ensures CheckUrl(query, parses, missing, invalid) == CheckUrl(query, parses', missing, invalid)
    ensures CheckUrl(query, parses, missing, invalid).Reject?
  {
  }

  // ---------------------------------------------------------------------
  // GET /api/rss
  // ---------------------------------------------------------------------

  function RssFailure(message: string): RssReply
  {
    RssReply(500, RssErrorJson(ErrorBody(RSS_FAILED, Some(message))))
  }

  /** The reply of `/api/rss` to the query parameter `query`. */
  function HandleRss(query: Option<string>, parses: string -> bool, fetch: string -> Fetched<Document>, clock: nat -> int): (r: RssReply)
    ensures r.status == 200 || r.status == 400 || r.status == 500
    ensures r.status == 400 <==> CheckUrl(query, parses, RSS_MISSING, RSS_INVALID).Reject?
    ensures r.status == 400 ==> r.body == RssErrorJson(CheckUrl(query, parses, RSS_MISSING, RSS_INVALID).error)
    ensures r.status == 200 <==>
      && CheckUrl(query, parses, RSS_MISSING, RSS_INVALID).Pass?
      && fetch(query.value).Answered? && IsOk(fetch(query.value).status)
      && fetch(query.value).body.Parsed?
    ensures r.status == 200 ==> r.body == FeedJson(Project(query.value, fetch(query.value).body.feed, clock))
    ensures r.status == 500 ==> r.body.RssErrorJson? && r.body.error.error == RSS_FAILED && r.body.error.message.Some?
    ensures CheckUrl(query, parses, RSS_MISSING, RSS_INVALID).Pass? && fetch(query.value).Answered? && !IsOk(fetch(query.value).status)
      ==> r == RssFailure(HttpErrorMessage(fetch(query.value).status))
    ensures CheckUrl(query, parses, RSS_MISSING, RSS_INVALID).Pass? && fetch(query.value).Failed?
      ==> r == RssFailure(fetch(query.value).reason)
    ensures CheckUrl(query, parses, RSS_MISSING, RSS_INVALID).Pass? && fetch(query.value).Answered?
      && IsOk(fetch(query.value).status) && fetch(query.value).body.Unreadable?
      ==> r == RssFailure(fetch(query.value).body.reason)
  {
    match CheckUrl(query, parses, RSS_MISSING, RSS_INVALID)
    case Reject(error) => RssReply(400, RssErrorJson(error))
    case Pass(url) =>
      match fetch(url)
      case Failed(reason) => RssFailure(reason)
      case Answered(status, document) =>
        if !IsOk(status) then RssFailure(HttpErrorMessage(status))
        else
          match document
          case Unreadable(reason) => RssFailure(reason)
          case Parsed(feed) => RssReply(200, FeedJson(Project(url, feed, clock)))
  }

  /** A rejected `/api/rss` request makes no upstream request and reads no
      clock: its reply is the same whatever `fetch` and `clock` are. A
      missing or empty parameter does not even reach the URL parser.
      Every rejection is a 400 with an `error` field and no `message`. */
  lemma RssRejectionIsLocal(query: Option<string>, parses: string -> bool, parses': string -> bool,
                            fetch: string -> Fetched<Document>, fetch': string -> Fetched<Document>,
                            clock: nat -> int, clock': nat -> int)
    requires CheckUrl(query, parses, RSS_MISSING, RSS_INVALID).Reject?
    ensures HandleRss(query, parses, fetch, clock) == HandleRss(query, parses, fetch', clock')
    ensures (query.None? || query.value == "") ==>
      && HandleRss(query, parses, fetch, clock) == HandleRss(query, parses', fetch', clock')
      && HandleRss(query, parses, fetch, clock) == RssReply(400, RssErrorJson(ErrorBody(RSS_MISSING, None)))
    ensures (query.Some? && query.value != "") ==>
      HandleRss(query, parses, fetch, clock) == RssReply(400, RssErrorJson(ErrorBody(RSS_INVALID, None)))
  {
  }

  /** A non-ok upstream reply is a 500 whose message is exactly
      `HTTP error! status: <n>`, whatever the body was. */
  lemma RssUpstreamError(url: string, parses: string -> bool, fetch: string -> Fetched<Document>, clock: nat -> int)
    requires url != "" && parses(url)
    requires fetch(url).Answered? && !IsOk(fetch(url).status)
    ensures var r := HandleRss(Some(url), parses, fetch, clock);
      && r.status == 500
      && r.body == RssErrorJson(ErrorBody(RSS_FAILED, Some(HTTP_ERROR_PREFIX + Decimal(fetch(url).status))))
  {
  }

  // ---------------------------------------------------------------------
  // GET /api/image-proxy
  // ---------------------------------------------------------------------

  /** The headers set on a proxied image: the upstream content type, or
      `image/jpeg` when the upstream sent none or an empty one, a one-day
      public cache lifetime, and the fixed cross-origin triple. */
  function ImageHeaders(contentType: Option<string>): (h: map<string, string>)
    ensures h.Keys == {"Content-Type", "Cache-Control", "Access-Control-Allow-Origin",
                       "Access-Control-Allow-Methods", "Access-Control-Allow-Headers"}
    ensures contentType.Some? && contentType.value != "" ==> h["Content-Type"] == contentType.value
    ensures contentType.None? || contentType.value == "" ==> h["Content-Type"] == "image/jpeg"
    ensures h["Content-Type"] != ""
    ensures h["Cache-Control"] == "public, max-age=86400"
    ensures h["Access-Control-Allow-Origin"] == "*"
    ensures h["Access-Control-Allow-Methods"] == "GET"
    ensures h["Access-Control-Allow-Headers"] == "Content-Type"
  {
    map[
      "Content-Type" := TextOr(contentType, DEFAULT_IMAGE_TYPE),
      "Cache-Control" := IMAGE_CACHE_CONTROL,
      "Access-Control-Allow-Origin" := "*",
      "Access-Control-Allow-Methods" := "GET",
      "Access-Control-Allow-Headers" := "Content-Type"]
  }

  function ImageFailure(message: string): ImageReply
  {
    ImageErrorJson(500, ErrorBody(IMAGE_FAILED, Some(message)))
  }

  /** The reply of `/api/image-proxy` to the query parameter `query`. */
  function HandleImage(query: Option<string>, parses: string -> bool, fetch: string -> Fetched<Image>): (r: ImageReply)
    ensures r.status == 200 || r.status == 400 || r.status == 500
    ensures r.status == 400 <==> CheckUrl(query, parses, IMAGE_MISSING, IMAGE_INVALID).Reject?
    ensures r.status == 400 ==> r == ImageErrorJson(400, CheckUrl(query, parses, IMAGE_MISSING, IMAGE_INVALID).error)
    ensures r.Streamed? <==>
      && CheckUrl(query, parses, IMAGE_MISSING, IMAGE_INVALID).Pass?
      && fetch(query.value).Answered? && IsOk(fetch(query.value).status)
    ensures r.Streamed? ==>
      && r.status == 200
      && r.bytes == fetch(query.value).body.bytes
      && r.headers == ImageHeaders(fetch(query.value).body.contentType)
    ensures r.status == 500 ==> r.ImageErrorJson? && r.error.error == IMAGE_FAILED && r.error.message.Some?
    ensures CheckUrl(query, parses, IMAGE_MISSING, IMAGE_INVALID).Pass? && fetch(query.value).Answered? && !IsOk(fetch(query.value).status)
      ==> r == ImageFailure(HttpErrorMessage(fetch(query.value).status))
    ensures CheckUrl(query, parses, IMAGE_MISSING, IMAGE_INVALID).Pass? && fetch(query.value).Failed?
      ==> r == ImageFailure(fetch(query.value).reason)
  {
    match CheckUrl(query, parses, IMAGE_MISSING, IMAGE_INVALID)
    case Reject(error) => ImageErrorJson(400, error)
    case Pass(url) =>
      match fetch(url)
      case Failed(reason) => ImageFailure(reason)
      case Answered(status, image) =>
        if !IsOk(status) then ImageFailure(HttpErrorMessage(status))
        else Streamed(200, ImageHeaders(image.contentType), image.bytes)
  }

  /** A rejected `/api/image-proxy` request makes no upstream request;
      a missing or empty parameter does not reach the URL parser. */
  lemma ImageRejectionIsLocal(query: Option<string>, parses: string -> bool, parses': string -> bool,
                              fetch: string -> Fetched<Image>, fetch': string -> Fetched<Image>)
    requires CheckUrl(query, parses, IMAGE_MISSING, IMAGE_INVALID).Reject?
    ensures HandleImage(query, parses, fetch) == HandleImage(query, parses, fetch')
    ensures (query.None? || query.value == "") ==>
      && HandleImage(query, parses, fetch) == HandleImage(query, parses', fetch')
      && HandleImage(query, parses, fetch) == ImageErrorJson(400, ErrorBody(IMAGE_MISSING, None))
    ensures (query.Some? && query.value != "") ==>
      HandleImage(query, parses, fetch) == ImageErrorJson(400, ErrorBody(IMAGE_INVALID, None))
  {
  }
}
