/** The projection of a parsed feed onto the JSON the relay returns from
    `/api/rss`: the channel title and one record per `<item>`, in
    document order.

    The XML parser is not part of this model. A feed arrives as the text
    of its first `channel > title` element, if there is one, and, per
    item, the text of its first `title`, `description`, `pubDate` and
    `link` descendants, each `None` when the element is missing. */
module Feed {

  import opened Wrappers
  import opened JsText
  import ImageSrc

  /** The placeholder title 无标题 ("untitled"). */
  const UNTITLED: string := "\U{65E0}\U{6807}\U{9898}"

  datatype RawItem = RawItem(
    title: Option<string>,
    description: Option<string>,
    pubDate: Option<string>,
    link: Option<string>)

  datatype RawFeed = RawFeed(channelTitle: Option<string>, items: seq<RawItem>)

  datatype FeedItem = FeedItem(
    id: string,
    title: string,
    content: string,
    pubDate: string,
    link: string,
    source: string,
    imageUrl: Option<string>,
    cachedAt: int)

  datatype FeedResult = FeedResult(title: string, items: seq<FeedItem>)

  /** `element?.textContent || fallback`: the text unless the element is
      missing or its text is empty. */
  function TextOr(text: Option<string>, fallback: string): (r: string)
    ensures text.Some? && text.value != "" ==> r == text.value
    ensures text.None? || text.value == "" ==> r == fallback
  {
    match text
    case Some(t) => if t != "" then t else fallback
    case None => fallback
  }

  /** The id of the item at `index` of the feed at `url`: `${url}-${index}`. */
  function ItemId(url: string, index: nat): (r: string)
    ensures |r| > |url| + 1
    ensures r[..|url| + 1] == url + "-"
    ensures r[|url| + 1..] == Decimal(index)
  {
    url + "-" + Decimal(index)
  }

  /** `(title || '无标题').trim()` for an item's title text. */
  function ItemTitle(title: Option<string>): (r: string)
    ensures title.None? || title.value == "" ==> r == UNTITLED
    ensures title.Some? && title.value != "" ==> r == Trim(title.value)
  {
    Trim(TextOr(title, UNTITLED))
  }

  /** The record built for one item; `cachedAt` is the clock reading
      taken while the item is projected. */
  function ProjectItem(url: string, index: nat, item: RawItem, cachedAt: int): (r: FeedItem)
    ensures r.id == ItemId(url, index) && r.source == url && r.cachedAt == cachedAt
    ensures r.title == ItemTitle(item.title)
    ensures r.content == (if item.description.Some? then item.description.value else "")
    ensures r.pubDate == (if item.pubDate.Some? then item.pubDate.value else "")
    ensures r.link == (if item.link.Some? then item.link.value else "")
    ensures r.imageUrl == ImageSrc.ImageUrl(r.content)
  {
    var description := TextOr(item.description, "");
    FeedItem(
      id := ItemId(url, index),
      title := ItemTitle(item.title),
      content := description,
      pubDate := TextOr(item.pubDate, ""),
      link := TextOr(item.link, ""),
      source := url,
      imageUrl := ImageSrc.ImageUrl(description),
      cachedAt := cachedAt)
  }

  /** `(channelTitle || '').trim()`: the trimmed channel title, or `''`
      when the feed has none. */
  function ChannelTitle(text: Option<string>): (r: string)
    ensures text.None? ==> r == ""
    ensures text.Some? ==> r == Trim(text.value)
  {
    assert Trim("") == "" by { TrimEmptyIff(""); }
    Trim(TextOr(text, ""))
  }

  /** The response body for the feed fetched from `url`. `clock(i)` is
      the millisecond time read while item `i` is projected. */
  function Project(url: string, feed: RawFeed, clock: nat -> int): (r: FeedResult)
    ensures r.title == ChannelTitle(feed.channelTitle)
    ensures |r.items| == |feed.items|
    ensures forall i :: 0 <= i < |feed.items| ==> r.items[i] == ProjectItem(url, i, feed.items[i], clock(i))
  {
    FeedResult(
      ChannelTitle(feed.channelTitle),
      seq(|feed.items|, i requires 0 <= i < |feed.items| => ProjectItem(url, i, feed.items[i], clock(i))))
  }

  /** Every id names its feed and its position, and so tells the items of
      one response apart. */
  lemma ItemIdInjective(url: string, i: nat, j: nat)
    requires ItemId(url, i) == ItemId(url, j)
    ensures i == j
  {
    var n := |url| + 1;
    assert ItemId(url, i)[n..] == Decimal(i);
    assert ItemId(url, j)[n..] == Decimal(j);
    DecimalInjective(i, j);
  }

  /** Item `i` of the response comes from item `i` of the feed, carries the
      feed URL as its source and an id that no other item of the same
      response has. */
  lemma ItemsIdentified(url: string, feed: RawFeed, clock: nat -> int, i: nat, j: nat)
    requires i < |feed.items| && j < |feed.items|
    ensures Project(url, feed, clock).items[i].source == url
    ensures Project(url, feed, clock).items[i].id == url + "-" + Decimal(i)
    ensures Project(url, feed, clock).items[i].cachedAt == clock(i)
    ensures i != j ==> Project(url, feed, clock).items[i].id != Project(url, feed, clock).items[j].id
  {
    if i != j && ItemId(url, i) == ItemId(url, j) {
      ItemIdInjective(url, i, j);
    }
  }

  /** The title rule: the placeholder when the title element is missing or
      empty, otherwise the element's text trimmed (so whitespace-only text
      gives the empty string). The placeholder therefore appears exactly
      when the title is missing, empty, or itself trims to the placeholder. */
  lemma TitleRule(title: Option<string>)
    ensures title.None? || title.value == "" ==> ItemTitle(title) == UNTITLED
    ensures title.Some? && title.value != "" ==> ItemTitle(title) == Trim(title.value)
    ensures title.Some? && title.value != "" && AllSpace(title.value) ==> ItemTitle(title) == ""
    ensures ItemTitle(title) == UNTITLED <==> title.None? || title.value == "" || Trim(title.value) == UNTITLED
    ensures IsTrimmed(ItemTitle(title))
  {
    assert IsTrimmed(UNTITLED);
    TrimOfTrimmed(UNTITLED);
    if title.Some? {
      TrimEmptyIff(title.value);
    }
  }

  /** The field rules of one item in one place, collecting the contracts
      of `ProjectItem` and `ImageSrc.ImageUrl`: description, publication
      date and link are the element texts as they are, untrimmed, and the
      empty string for a missing element; the image URL is `None` exactly
      when the description holds no match of the image pattern, and
      otherwise the chosen match's capture. */
  lemma FieldRule(url: string, index: nat, item: RawItem, cachedAt: int)
    ensures var r := ProjectItem(url, index, item, cachedAt);
      && r.content == (if item.description.Some? then item.description.value else "")
      && r.pubDate == (if item.pubDate.Some? then item.pubDate.value else "")
      && r.link == (if item.link.Some? then item.link.value else "")
      && (r.imageUrl.None? <==> forall p, q, e :: !ImageSrc.IsMatch(r.content, p, q, e))
      && (r.imageUrl.Some? ==> exists p, q, e :: ImageSrc.Chosen(r.content, p, q, e) && r.imageUrl.value == r.content[q + 5..e])
  {
  }
}
