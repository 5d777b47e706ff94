/**
 * The plugin's records: news items and collections, API source records,
 * schedule configurations, cache entries and the chat messages the sources
 * produce.  Timestamps are whole seconds; the wall clock is a parameter.
 */
module Models {
  import opened Wrappers

  type Bytes = seq<bv8>

  /**
   * One piece of a chat message: text, an image given by its bytes, or the
   * image segment `MessageSegment.image(None)` builds, which has no file.
   */
  datatype Segment = Text(text: string) | Image(data: Bytes) | NoFileImage

  /** A OneBot message; an empty message is falsy. */
  type Message = seq<Segment>

  datatype NewsItem = NewsItem(
    title: string,
    url: string,
    index: int,
    hot: string,
    description: string,
    imageUrl: string,
    pubTime: string)

  /** `NewsItem(title=…, url=…, index=…)` with the remaining fields defaulted. */
  function Item(title: string, url: string, index: int): NewsItem {
    NewsItem(title, url, index, "", "", "", "")
  }

  /**
   * A collection of news items.  `binaryData` is the attribute the binary
   * image parser attaches; `None` when it was never set.
   */
  datatype NewsData = NewsData(
    title: string,
    items: seq<NewsItem>,
    updateTime: string,
    source: string,
    binaryData: Option<Bytes>)
  {
    /** `add_item`: the item goes to the end, the rest is kept in order. */
    function AddItem(item: NewsItem): (d: NewsData)
      ensures d.items == items + [item]
      ensures |d.items| == |items| + 1 && d.items[|items|] == item
      ensures forall i :: 0 <= i < |items| ==> d.items[i] == items[i]
      ensures d.title == title && d.updateTime == updateTime && d.source == source && d.binaryData == binaryData
    {
      this.(items := items + [item])
    }
  }

  /**
   * The `NewsData(...)` constructor followed by `__post_init__`, which stamps
   * `update_time` with the current time only when the given one is empty.
   */
  function NewNewsData(title: string, items: seq<NewsItem>, updateTime: string, source: string, now: string): (d: NewsData)
    ensures updateTime != "" ==> d.updateTime == updateTime
    ensures updateTime == "" ==> d.updateTime == now
    ensures d.title == title && d.items == items && d.source == source && d.binaryData == None
  {
    NewsData(title, items, if updateTime == "" then now else updateTime, source, None)
  }

  /** A configured API endpoint for one news type, with its health counters. */
  datatype ApiSource = ApiSource(
    url: string,
    priority: int,
    parser: string,
    enabled: bool,
    lastSuccess: int,
    failureCount: int)

  /** `ApiSource(url=…)` with the dataclass defaults. */
  function DefaultApiSource(url: string): (s: ApiSource)
    ensures s.url == url && s.priority == 1 && s.parser == "default"
    ensures s.enabled && s.lastSuccess == 0 && s.failureCount == 0
  {
    ApiSource(url, 1, "default", true, 0, 0)
  }

  /**
   * A news source as `news_sources` holds it: the attributes every
   * `BaseNewsSource` sets in its constructor. What its `fetch_data`,
   * `generate_image` and `generate_text` do is given separately.
   */
  datatype NewsSource = NewsSource(
    name: string,
    description: string,
    defaultFormat: string,
    formats: seq<string>,
    aliases: seq<string>)

  datatype ScheduleConfig = ScheduleConfig(scheduleTime: string, formatType: string)

  /** `ScheduleConfig.to_dict`: both fields, and reading the dict back gives the configuration back. */
  function ToDict(c: ScheduleConfig): (d: map<string, string>)
    ensures d.Keys == {"schedule_time", "format_type"}
    ensures FromDict(d) == c
  {
    map["schedule_time" := c.scheduleTime, "format_type" := c.formatType]
  }

  /** `ScheduleConfig.from_dict`: missing keys give `00:00` and `image`; present values are kept. */
  function FromDict(d: map<string, string>): (c: ScheduleConfig)
    ensures "schedule_time" !in d ==> c.scheduleTime == "00:00"
    ensures "format_type" !in d ==> c.formatType == "image"
    ensures "schedule_time" in d ==> c.scheduleTime == d["schedule_time"]
    ensures "format_type" in d ==> c.formatType == d["format_type"]
  {
    ScheduleConfig(
      if "schedule_time" in d then d["schedule_time"] else "00:00",
      if "format_type" in d then d["format_type"] else "image")
  }

  /** A cached message with its absolute expiry time. */
  datatype CacheItem = CacheItem(data: Message, expireTime: int, createdAt: int)
  {
    /** `is_expired`: strictly past the expiry time. */
    predicate IsExpired(now: int) { now > expireTime }

    /** `time_to_expire`: the seconds left, never negative. */
    function TimeToExpire(now: int): (t: nat)
      ensures t == 0 <==> IsExpired(now) || now == expireTime
      ensures !IsExpired(now) ==> now + t == expireTime
    {
      if expireTime - now > 0 then expireTime - now else 0
    }
  }

  /** An entry is still valid at exactly its expiry time and expired one second later. */
  lemma ExpiryBoundary(c: CacheItem)
    ensures !c.IsExpired(c.expireTime) && c.IsExpired(c.expireTime + 1)
    ensures c.TimeToExpire(c.expireTime) == 0
  {
  }
}
