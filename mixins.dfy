/**
 * The mixins of api/sources/mixins.py that the concrete news sources are
 * built from: item post-processing, the plain-text layout, the image
 * renderers with their fallbacks, and the API format choice.
 *
 * A `max_items` of `None` is written 0; both are falsy. The renderer
 * (`render_news_to_image`) is an input function that answers the image
 * bytes or `None`; the size limit is a byte count.
 */
module Mixins {
  import opened Wrappers
  import opened PyText
  import opened Models
  import opened Exceptions

  // ----- process_news_items -----

  /** `if max_items and len(items) > max_items: items = items[:max_items]`. */
  function Limited(items: seq<NewsItem>, maxItems: int): (r: seq<NewsItem>)
    ensures maxItems >= 0 ==> |r| == if maxItems != 0 && |items| > maxItems then maxItems else |items|
    ensures |r| <= |items| && r == items[..|r|]
  {
    if maxItems != 0 && |items| > maxItems then Prefix(items, maxItems) else items
  }

  /** `if len(items) > max_items: items = items[:max_items]`, with no truthiness test. */
  function Capped(items: seq<NewsItem>, maxItems: int): (r: seq<NewsItem>)
    ensures maxItems >= 0 ==> |r| == if |items| > maxItems then maxItems else |items|
    ensures |r| <= |items| && r == items[..|r|]
  {
    if |items| > maxItems then Prefix(items, maxItems) else items
  }

  /** One item after the fill loop: a falsy index becomes its 1-based position, an empty url the default. */
  function FillItem(item: NewsItem, position: nat, ensureIndex: bool, ensureUrl: bool, defaultUrl: string): NewsItem {
    item.(index := if ensureIndex && item.index == 0 then position + 1 else item.index,
          url := if ensureUrl && item.url == "" then defaultUrl else item.url)
  }

  function Filled(items: seq<NewsItem>, ensureIndex: bool, ensureUrl: bool, defaultUrl: string): (r: seq<NewsItem>)
    ensures |r| == |items|
  {
    seq(|items|, i requires 0 <= i < |items| => FillItem(items[i], i, ensureIndex, ensureUrl, defaultUrl))
  }

  /** What `process_news_items` leaves in `news_data`. */
  function Processed(data: NewsData, maxItems: int, ensureIndex: bool, ensureUrl: bool, defaultUrl: string): NewsData {
    data.(items := Filled(Limited(data.items, maxItems), ensureIndex, ensureUrl, defaultUrl))
  }

  /** `process_news_items`: truncate, then fill index and url item by item. */
  method ProcessNewsItems(data: NewsData, maxItems: int, ensureIndex: bool, ensureUrl: bool, defaultUrl: string)
    returns (r: NewsData)
    ensures r == Processed(data, maxItems, ensureIndex, ensureUrl, defaultUrl)
  {
    var items := Limited(data.items, maxItems);
    var filled := items;
    var i := 0;
    while i < |filled|
      invariant 0 <= i <= |filled| && |filled| == |items|
      invariant forall j :: 0 <= j < |items| ==>
        filled[j] == if j < i then FillItem(items[j], j, ensureIndex, ensureUrl, defaultUrl) else items[j]
    {
      var item := filled[i];
      if ensureIndex && item.index == 0 {
        item := item.(index := i + 1);
      }
      if ensureUrl && item.url == "" {
        item := item.(url := defaultUrl);
      }
      filled := filled[i := item];
      i := i + 1;
    }
    r := data.(items := filled);
  }

  /**
   * Processing keeps the first items in order and only fills: every index is
   * truthy afterwards when asked for, every url non-empty when the default is,
   * a truthy index or non-empty url is kept, and nothing else of an item or
   * of the collection changes.
   */
  lemma ProcessedSpec(data: NewsData, maxItems: int, ensureIndex: bool, ensureUrl: bool, defaultUrl: string)
    requires maxItems >= 0
    ensures var r := Processed(data, maxItems, ensureIndex, ensureUrl, defaultUrl);
      && |r.items| == (if maxItems != 0 && |data.items| > maxItems then maxItems else |data.items|)
      && r.title == data.title && r.updateTime == data.updateTime && r.source == data.source
      && r.binaryData == data.binaryData
      && (forall i :: 0 <= i < |r.items| ==>
           && r.items[i].title == data.items[i].title && r.items[i].hot == data.items[i].hot
           && r.items[i].description == data.items[i].description
           && (ensureIndex ==> r.items[i].index != 0)
           && (data.items[i].index != 0 ==> r.items[i].index == data.items[i].index)
           && (ensureUrl && defaultUrl != "" ==> r.items[i].url != "")
           && (data.items[i].url != "" ==> r.items[i].url == data.items[i].url))
  {
  }

  /** Filling commutes with keeping a prefix, since an item's position does not change. */
  lemma FilledPrefix(items: seq<NewsItem>, k: int, ensureIndex: bool, ensureUrl: bool, defaultUrl: string)
    requires k >= 0
    ensures Prefix(Filled(items, ensureIndex, ensureUrl, defaultUrl), k)
      == Filled(Prefix(items, k), ensureIndex, ensureUrl, defaultUrl)
  {
  }

  /** Processing twice is processing once (for a non-negative limit). */
  lemma ProcessedIdempotent(data: NewsData, maxItems: int, ensureIndex: bool, ensureUrl: bool, defaultUrl: string)
    requires maxItems >= 0
    ensures var once := Processed(data, maxItems, ensureIndex, ensureUrl, defaultUrl);
      Processed(once, maxItems, ensureIndex, ensureUrl, defaultUrl) == once
  {
    var once := Processed(data, maxItems, ensureIndex, ensureUrl, defaultUrl);
    ProcessedSpec(data, maxItems, ensureIndex, ensureUrl, defaultUrl);
    assert Limited(once.items, maxItems) == once.items;
    assert Filled(once.items, ensureIndex, ensureUrl, defaultUrl) == once.items;
  }

  // ----- the plain-text layout -----

  /** A title longer than the limit is cut to `limit - 3` characters followed by `...`. */
  function ShortTitle(title: string, maxLength: int): (r: string)
    ensures |title| <= maxLength ==> r == title
  {
    if |title| > maxLength then Prefix(title, maxLength - 3) + "..." else title
  }

  /** For a limit of at least 3, a long title becomes exactly `limit` characters ending in `...`. */
  lemma ShortTitleSpec(title: string, maxLength: int)
    requires maxLength >= 3
    ensures |ShortTitle(title, maxLength)| <= maxLength
    ensures |title| > maxLength ==>
      && |ShortTitle(title, maxLength)| == maxLength
      && ShortTitle(title, maxLength)[..maxLength - 3] == title[..maxLength - 3]
      && ShortTitle(title, maxLength)[maxLength - 3..] == "..."
  {
  }

  /** `【title】` followed by a blank line. */
  function Header(title: string): Message {
    [Text("【" + title + "】\n\n")]
  }

  /** The two lines `show_detail_hint` adds. */
  const DetailHint: Message := [Text("提示: 回复数字可查看对应新闻的网页截图\n"), Text("例如: 回复 1 查看第一条新闻\n")]

  /** The segments for item number n: its title line, its optional description and link lines, a blank line. */
  function ItemBlock(n: nat, item: NewsItem, maxLength: int, showDescription: bool, showUrl: bool): Message {
    [Text(NatToStr(n) + ". " + ShortTitle(item.title, maxLength) + "\n")]
      + (if showDescription && item.description != "" then [Text("   " + item.description + "\n")] else [])
      + (if showUrl && item.url != "" then [Text("   链接: " + item.url + "\n")] else [])
      + [Text("\n")]
  }

  /**
   * A block is the numbered title line, then the description line only when
   * shown and non-empty, then the link line only when shown and the url is
   * non-empty, then a blank line.
   */
  lemma ItemBlockSpec(n: nat, item: NewsItem, maxLength: int, showDescription: bool, showUrl: bool)
    ensures var m := ItemBlock(n, item, maxLength, showDescription, showUrl);
      var d := if showDescription && item.description != "" then 1 else 0;
      var u := if showUrl && item.url != "" then 1 else 0;
      && |m| == 2 + d + u
      && m[0] == Text(NatToStr(n) + ". " + ShortTitle(item.title, maxLength) + "\n")
      && (d == 1 ==> m[1] == Text("   " + item.description + "\n"))
      && (u == 1 ==> m[1 + d] == Text("   链接: " + item.url + "\n"))
      && m[|m| - 1] == Text("\n")
  {
  }

  /** The header and the blocks of all items, numbered from 1 in list order. */
  function Body(title: string, items: seq<NewsItem>, maxLength: int, showDescription: bool, showUrl: bool): Message {
    if |items| == 0 then Header(title)
    else
      Body(title, items[..|items| - 1], maxLength, showDescription, showUrl)
        + ItemBlock(|items|, items[|items| - 1], maxLength, showDescription, showUrl)
  }

  /** The whole text message for the items kept. */
  function TextLayout(title: string, items: seq<NewsItem>, maxLength: int, showDescription: bool, showUrl: bool, showHint: bool)
    : Message
  {
    Body(title, items, maxLength, showDescription, showUrl) + (if showHint then DetailHint else [])
  }

  /** The layout of the first k items begins the layout of all of them. */
  lemma {:induction false} BodyPrefix(title: string, items: seq<NewsItem>, k: nat, maxLength: int, showDescription: bool, showUrl: bool)
    requires k <= |items|
    ensures Body(title, items[..k], maxLength, showDescription, showUrl) <= Body(title, items, maxLength, showDescription, showUrl)
    decreases |items|
  {
    if k < |items| {
      var init := items[..|items| - 1];
      assert init[..k] == items[..k];
      BodyPrefix(title, init, k, maxLength, showDescription, showUrl);
    } else {
      assert items[..k] == items;
    }
  }

  /**
   * Item k (0-based) is laid out as block number k + 1, right after the
   * header and the blocks of the items before it: numbers run 1..n in list
   * order, and the message starts with the header.
   */
  lemma BlockAt(title: string, items: seq<NewsItem>, k: nat, maxLength: int, showDescription: bool, showUrl: bool)
    requires k < |items|
    ensures Body(title, items[..k], maxLength, showDescription, showUrl)
      + ItemBlock(k + 1, items[k], maxLength, showDescription, showUrl)
      <= Body(title, items, maxLength, showDescription, showUrl)
    ensures Header(title) <= Body(title, items, maxLength, showDescription, showUrl)
  {
    BodyPrefix(title, items, k + 1, maxLength, showDescription, showUrl);
    BodyPrefix(title, items, 0, maxLength, showDescription, showUrl);
    assert items[..k + 1][..k] == items[..k];
  }

  lemma BodyStep(title: string, items: seq<NewsItem>, i: nat, maxLength: int, showDescription: bool, showUrl: bool)
    requires i < |items|
    ensures Body(title, items[..i + 1], maxLength, showDescription, showUrl)
      == Body(title, items[..i], maxLength, showDescription, showUrl) + ItemBlock(i + 1, items[i], maxLength, showDescription, showUrl)
  {
    assert items[..i + 1][..i] == items[..i];
  }

  /** The lines of one item, appended one after another. */
  method LayOutItem(n: nat, item: NewsItem, maxLength: int, showDescription: bool, showUrl: bool) returns (block: Message)
    ensures block == ItemBlock(n, item, maxLength, showDescription, showUrl)
  {
    block := [Text(NatToStr(n) + ". " + ShortTitle(item.title, maxLength) + "\n")];
    if showDescription && item.description != "" {
      block := block + [Text("   " + item.description + "\n")];
    }
    if showUrl && item.url != "" {
      block := block + [Text("   链接: " + item.url + "\n")];
    }
    block := block + [Text("\n")];
  }

  /** Lay out a header, the numbered items and the optional hint lines, appending segment by segment. */
  method LayOutText(title: string, items: seq<NewsItem>, maxLength: int, showDescription: bool, showUrl: bool, showHint: bool)
    returns (message: Message)
    ensures message == TextLayout(title, items, maxLength, showDescription, showUrl, showHint)
  {
    message := Header(title);
    for i := 0 to |items|
      invariant message == Body(title, items[..i], maxLength, showDescription, showUrl)
    {
      BodyStep(title, items, i, maxLength, showDescription, showUrl);
      var block := LayOutItem(i + 1, items[i], maxLength, showDescription, showUrl);
      message := message + block;
    }
    assert items[..|items|] == items;
    if showHint {
      message := message + DetailHint;
    }
  }

  /**
   * `format_text_with_limit`: the items kept (the first `max_items` when it is
   * truthy and exceeded) laid out under `【title】`; the truncation is visible
   * in the returned collection.
   */
  method FormatTextWithLimit(
    data: NewsData, title: string, maxItems: int, titleMaxLength: int,
    showDescription: bool, showUrl: bool, showDetailHint: bool)
    returns (message: Message, kept: NewsData)
    ensures kept == data.(items := Limited(data.items, maxItems))
    ensures message == TextLayout(title, kept.items, titleMaxLength, showDescription, showUrl, showDetailHint)
  {
    kept := data.(items := Limited(data.items, maxItems));
    message := LayOutText(title, kept.items, titleMaxLength, showDescription, showUrl, showDetailHint);
  }

  // ----- binary data and rendering -----

  /** Truthy binary data: present and non-empty. */
  predicate HasBinary(data: NewsData) {
    data.binaryData.Some? && |data.binaryData.value| > 0
  }

  /** `handle_binary_data`: an image of the attached bytes when there are any. */
  function HandleBinaryData(data: NewsData): (r: Option<Message>)
    ensures r.Some? <==> HasBinary(data)
    ensures r.Some? ==> r.value == [Image(data.binaryData.value)]
  {
    if HasBinary(data) then Some([Image(data.binaryData.value)]) else None
  }

  /** A render result `if pic and len(pic) > 0` accepts. */
  predicate Rendered(pic: Option<Bytes>) {
    pic.Some? && |pic.value| > 0
  }

  /**
   * `render_with_fallback`: attached bytes are sent as they are; otherwise the
   * items are limited and rendered, and an empty render becomes an error text.
   * The collection handed to the renderer is `data` with only its items cut
   * down to a prefix (at most `maxItems` of them when that is positive).
   */
  function RenderWithFallback(name: string, data: NewsData, maxItems: int, render: NewsData -> Option<Bytes>)
    : (m: Message)
    ensures |m| == 1
    ensures var shown := data.(items := Limited(data.items, maxItems));
      && shown == data.(items := shown.items)
      && shown.items == data.items[..|shown.items|]
      && (maxItems > 0 ==> |shown.items| <= maxItems)
      && (maxItems == 0 ==> shown == data)
      && (m[0].Image? <==> HasBinary(data) || Rendered(render(shown)))
      && (HasBinary(data) ==> m[0].data == data.binaryData.value)
      && (!HasBinary(data) && Rendered(render(shown)) ==> m[0].data == render(shown).value)
    ensures !m[0].Image? ==> m[0] == Text("获取" + name + "日报失败: 生成的图片数据为空")
  {
    if HasBinary(data) then [Image(data.binaryData.value)]
    else
      var pic := render(data.(items := Limited(data.items, maxItems)));
      if Rendered(pic) then [Image(pic.value)] else [Text("获取" + name + "日报失败: 生成的图片数据为空")]
  }

  // ----- render_with_size_optimization -----

  /** The steps used when none are given. */
  const DefaultSteps: seq<int> := [15, 10, 5]

  /** The collection one step renders: a new `NewsData` of the first `step` items, filled with index and `#`. */
  function StepData(data: NewsData, step: int, now: string): NewsData {
    NewNewsData(data.title, Filled(Prefix(data.items, step), true, true, "#"), data.updateTime, data.source, now)
  }

  /** A render that is non-empty and within the size limit. */
  predicate Fits(pic: Option<Bytes>, maxBytes: nat) {
    Rendered(pic) && |pic.value| <= maxBytes
  }

  /** The first step, in order, whose render fits. */
  function FirstFit(data: NewsData, steps: seq<int>, maxBytes: nat, render: NewsData -> Option<Bytes>, now: string)
    : Option<Bytes>
  {
    if |steps| == 0 then None
    else
      var pic := render(StepData(data, steps[0], now));
      if Fits(pic, maxBytes) then pic else FirstFit(data, steps[1..], maxBytes, render, now)
  }

  /**
   * A fitting render comes from some step i whose render fits, and no step
   * before i fits.
   */
  lemma {:induction false} FirstFitFound(data: NewsData, steps: seq<int>, maxBytes: nat, render: NewsData -> Option<Bytes>, now: string)
    returns (i: nat)
    requires FirstFit(data, steps, maxBytes, render, now).Some?
    ensures i < |steps| && Fits(render(StepData(data, steps[i], now)), maxBytes)
    ensures FirstFit(data, steps, maxBytes, render, now) == render(StepData(data, steps[i], now))
    ensures forall j :: 0 <= j < i ==> !Fits(render(StepData(data, steps[j], now)), maxBytes)
  {
    if |steps| == 0 {
      assert false;
    } else if Fits(render(StepData(data, steps[0], now)), maxBytes) {
      i := 0;
    } else {
      var i' := FirstFitFound(data, steps[1..], maxBytes, render, now);
      i := i' + 1;
    }
  }

  /** No fitting render means no step fits. */
  lemma {:induction false} FirstFitNone(data: NewsData, steps: seq<int>, maxBytes: nat, render: NewsData -> Option<Bytes>, now: string)
    requires FirstFit(data, steps, maxBytes, render, now).None?
    ensures forall j :: 0 <= j < |steps| ==> !Fits(render(StepData(data, steps[j], now)), maxBytes)
  {
    if |steps| > 0 {
      FirstFitNone(data, steps[1..], maxBytes, render, now);
      forall j | 1 <= j < |steps|
        ensures !Fits(render(StepData(data, steps[j], now)), maxBytes)
      {
        assert steps[j] == steps[1..][j - 1];
      }
    }
  }

  /** The message `render_with_size_optimization` answers with. */
  function SizeOptimized(
    name: string, data: NewsData, maxBytes: nat, steps: Option<seq<int>>, render: NewsData -> Option<Bytes>, now: string)
    : (m: Message)
    ensures |m| == 1
    ensures HasBinary(data) ==> m[0] == Image(data.binaryData.value)
    ensures !HasBinary(data) ==>
      var stepList := steps.GetOr(DefaultSteps);
      && (m[0].Image? <==> exists i :: 0 <= i < |stepList| && Fits(render(StepData(data, stepList[i], now)), maxBytes))
      && (m[0].Image? ==> 0 < |m[0].data| <= maxBytes)
    ensures !m[0].Image? ==> m[0] == Text("获取" + name + "日报失败: 图片渲染失败")
  {
    var stepList := steps.GetOr(DefaultSteps);
    if HasBinary(data) then [Image(data.binaryData.value)]
    else
      match FirstFit(data, stepList, maxBytes, render, now)
      case Some(pic) =>
        assert Fits(Some(pic), maxBytes)
          && exists i :: 0 <= i < |stepList| && Fits(render(StepData(data, stepList[i], now)), maxBytes) by {
          var i := FirstFitFound(data, stepList, maxBytes, render, now);
          assert 0 <= i < |stepList| && Fits(render(StepData(data, stepList[i], now)), maxBytes);
        }
        [Image(pic)]
      case None =>
        FirstFitNone(data, stepList, maxBytes, render, now);
        [Text("获取" + name + "日报失败: 图片渲染失败")]
  }

  /**
   * `render_with_size_optimization`: attached bytes first; then each step in
   * order, answering the first non-empty render within the limit; an error
   * text when every step fails.
   */
  method RenderWithSizeOptimization(
    name: string, data: NewsData, maxBytes: nat, steps: Option<seq<int>>, render: NewsData -> Option<Bytes>, now: string)
    returns (m: Message)
    ensures m == SizeOptimized(name, data, maxBytes, steps, render, now)
  {
    var stepList := steps.GetOr(DefaultSteps);
    if HasBinary(data) {
      return [Image(data.binaryData.value)];
    }
    var i := 0;
    while i < |stepList|
      invariant 0 <= i <= |stepList|
      invariant FirstFit(data, stepList, maxBytes, render, now) == FirstFit(data, stepList[i..], maxBytes, render, now)
    {
      assert stepList[i..][1..] == stepList[i + 1..];
      var pic := render(StepData(data, stepList[i], now));
      if Rendered(pic) && |pic.value| <= maxBytes {
        return [Image(pic.value)];
      }
      i := i + 1;
    }
    return [Text("获取" + name + "日报失败: 图片渲染失败")];
  }

  // ----- the API format -----

  /** `determine_api_format`: the `format` parameter sent to the API. */
  function DetermineApiFormat(requested: string, globalDefault: string): (format: string)
    ensures format == "image" || format == "json"
    ensures format == "image" <==> globalDefault != "text" && requested != "text"
  {
    if globalDefault == "text" then "json"
    else if requested == "text" then "json"
    else "image"
  }

  /**
   * `ApiManager.fetch_data` called with `positional` arguments after the news
   * type: it accepts at most one (`extra_params`), so more raise `TypeError`.
   * `fetchData` answers for a news type and a requested format.
   */
  function CallFetchData(positional: nat, newsType: string, format: string, fetchData: (string, string) -> Result<NewsData, Exc>)
    : (r: Result<NewsData, Exc>)
    ensures positional > 1 ==> r.Failure? && r.error.TypeError?
    ensures positional <= 1 ==> r == fetchData(newsType, format)
  {
    if positional > 1 then
      Failure(TypeError("ApiManager.fetch_data() takes from 2 to 3 positional arguments but "
        + NatToStr(positional + 2) + " were given"))
    else fetchData(newsType, format)
  }

  /**
   * The body of `fetch_with_format_fallback` for a given number of
   * positional arguments per call: for an image request under a text
   * default, JSON is tried first and kept when it has items; a failure there
   * is caught and the image format requested instead.
   */
  function FormatFallback(
    positional: nat, name: string, requested: string, globalDefault: string,
    fetchData: (string, string) -> Result<NewsData, Exc>)
    : (r: Result<NewsData, Exc>)
    ensures positional > 1 ==> r.Failure? && r.error.TypeError?
    ensures positional <= 1 ==> r == fetchData(name, "json") || r == fetchData(name, "image")
  {
    var format := DetermineApiFormat(requested, globalDefault);
    if requested == "image" && globalDefault == "text" then
      var json := CallFetchData(positional, name, "json", fetchData);
      if json.Success? && |json.value.items| > 0 then json
      else CallFetchData(positional, name, "image", fetchData)
    else CallFetchData(positional, name, format, fetchData)
  }

  /**
   * `fetch_with_format_fallback` as written: both calls pass `params` and
   * `api_index`, so every call raises `TypeError`, whatever the formats and
   * whatever the API answers.
   */
  function FetchWithFormatFallbackAsWritten(
    name: string, requested: string, globalDefault: string, fetchData: (string, string) -> Result<NewsData, Exc>)
    : (r: Result<NewsData, Exc>)
    ensures r.Failure? && r.error.TypeError?
  {
    FormatFallback(2, name, requested, globalDefault, fetchData)
  }

  /**
   * `fetch_with_format_fallback` corrected, the calls passing only `params`
   * as `fetch_data` accepts: an image request under a text default answers
   * the JSON data when it has items and otherwise the image request's answer;
   * every other request asks once, in the format `determine_api_format` chose.
   */
  function FetchWithFormatFallback(
    name: string, requested: string, globalDefault: string, fetchData: (string, string) -> Result<NewsData, Exc>)
    : (r: Result<NewsData, Exc>)
    ensures var json := fetchData(name, "json");
      && (requested == "image" && globalDefault == "text" ==>
            r == if json.Success? && |json.value.items| > 0 then json else fetchData(name, "image"))
      && (!(requested == "image" && globalDefault == "text") ==>
            r == fetchData(name, DetermineApiFormat(requested, globalDefault)))
  {
    FormatFallback(1, name, requested, globalDefault, fetchData)
  }
}
