/**
 * The payload parsers that turn an HTTP response into `NewsData`, and the
 * name-based dispatch that picks one.  The body arrives already decoded:
 * `body` is what `response.json()` gives (or the text of its error) and
 * `feed` is what the feed library gives for the RSS parser.
 */
module Parsers {
  import opened Wrappers
  import opened PyText
  import opened JsonValue
  import opened Models
  import opened Exceptions

  /** One RSS entry; an absent attribute is `None`. */
  datatype FeedEntry = FeedEntry(title: Option<string>, link: Option<string>, description: Option<string>, published: Option<string>)
  datatype Feed = Feed(title: Option<string>, entries: seq<FeedEntry>)

  /** Header names are stored lower-case, as the case-insensitive lookup sees them. */
  datatype HttpResponse = HttpResponse(
    statusCode: int,
    url: string,
    host: string,
    headers: map<string, string>,
    body: Result<Json, string>,
    feed: Result<Feed, string>,
    content: Bytes)

  /** `response.headers.get(name, default)`, for a lower-case `name`. */
  function Header(r: HttpResponse, name: string, default: string): string {
    if name in r.headers then r.headers[name] else default
  }

  /** The wall clock, already formatted: `%Y-%m-%d %H:%M:%S` and `%m月%d日`. */
  datatype Clock = Clock(stamp: string, today: string)

  datatype ParserKind = DefaultParser | VVHanZhihuParser | OIOWebZhihuParser | RssParser | BinaryImageParser | HistoryTodayParser

  /** The key each parser has in `PARSERS`. */
  function ParserName(k: ParserKind): string {
    match k
    case DefaultParser => "default"
    case VVHanZhihuParser => "vvhan"
    case OIOWebZhihuParser => "oioweb"
    case RssParser => "rss"
    case BinaryImageParser => "binary_image"
    case HistoryTodayParser => "history_today"
  }

  predicate IsParserName(name: string) {
    name in {"default", "vvhan", "oioweb", "rss", "binary_image", "history_today"}
  }

  /** `get_parser`: the registered parser, or the default one for an unknown name. */
  function GetParser(name: string): (k: ParserKind)
    ensures IsParserName(name) ==> ParserName(k) == name
    ensures !IsParserName(name) ==> k == DefaultParser
  {
    match name
    case "vvhan" => VVHanZhihuParser
    case "oioweb" => OIOWebZhihuParser
    case "rss" => RssParser
    case "binary_image" => BinaryImageParser
    case "history_today" => HistoryTodayParser
    case _ => DefaultParser
  }

  /** Every parser is found under its own name, and any unknown name gives the default parser. */
  lemma GetParserSpec(name: string, k: ParserKind)
    ensures GetParser(ParserName(k)) == k
    ensures !IsParserName(name) ==> GetParser(name) == DefaultParser
    ensures GetParser(name) != DefaultParser ==> ParserName(GetParser(name)) == name
  {
  }

  // ----- the loop shared by the parsers: keep titled entries, number them -----

  /**
   * `for i, x in enumerate(xs, 1): if keep(x): add_item(make(x, i))`.
   */
  function Collect<T>(xs: seq<T>, keep: T -> bool, make: (T, nat) -> NewsItem): seq<NewsItem> {
    if |xs| == 0 then []
    else
      Collect(xs[..|xs| - 1], keep, make)
        + (if keep(xs[|xs| - 1]) then [make(xs[|xs| - 1], |xs|)] else [])
  }

  /** The 0-based positions of the kept entries, in order. */
  function Kept<T>(xs: seq<T>, keep: T -> bool): seq<nat> {
    if |xs| == 0 then []
    else Kept(xs[..|xs| - 1], keep) + (if keep(xs[|xs| - 1]) then [|xs| - 1] else [])
  }

  lemma {:induction false} KeptSound<T>(xs: seq<T>, keep: T -> bool)
    ensures forall k :: 0 <= k < |Kept(xs, keep)| ==> Kept(xs, keep)[k] < |xs| && keep(xs[Kept(xs, keep)[k]])
  {
    if |xs| > 0 {
      var ys := xs[..|xs| - 1];
      KeptSound(ys, keep);
      assert forall i :: 0 <= i < |ys| ==> ys[i] == xs[i];
    }
  }

  lemma {:induction false} KeptIncreasing<T>(xs: seq<T>, keep: T -> bool)
    ensures forall k, l :: 0 <= k < l < |Kept(xs, keep)| ==> Kept(xs, keep)[k] < Kept(xs, keep)[l]
  {
    if |xs| > 0 {
      var ys := xs[..|xs| - 1];
      KeptIncreasing(ys, keep);
      KeptSound(ys, keep);
    }
  }

  lemma {:induction false} KeptComplete<T>(xs: seq<T>, keep: T -> bool)
    ensures forall i :: 0 <= i < |xs| && keep(xs[i]) ==> i in Kept(xs, keep)
  {
    if |xs| > 0 {
      var ys := xs[..|xs| - 1];
      KeptComplete(ys, keep);
      assert forall i :: 0 <= i < |ys| ==> ys[i] == xs[i];
    }
  }

  lemma {:induction false} CollectAt<T>(xs: seq<T>, keep: T -> bool, make: (T, nat) -> NewsItem)
    ensures |Collect(xs, keep, make)| == |Kept(xs, keep)|
    ensures forall k :: 0 <= k < |Kept(xs, keep)| ==>
      Kept(xs, keep)[k] < |xs| && Collect(xs, keep, make)[k] == make(xs[Kept(xs, keep)[k]], Kept(xs, keep)[k] + 1)
  {
    if |xs| > 0 {
      var ys := xs[..|xs| - 1];
      CollectAt(ys, keep, make);
      KeptSound(ys, keep);
      assert forall i :: 0 <= i < |ys| ==> ys[i] == xs[i];
    }
  }

  /**
   * The items are exactly the kept entries, in their original order, each
   * built with its 1-based position in the whole list (skipped entries count).
   */
  lemma CollectSpec<T>(xs: seq<T>, keep: T -> bool, make: (T, nat) -> NewsItem)
    ensures var r, p := Collect(xs, keep, make), Kept(xs, keep);
      && |r| == |p|
      && (forall k :: 0 <= k < |p| ==> p[k] < |xs| && keep(xs[p[k]]) && r[k] == make(xs[p[k]], p[k] + 1))
      && (forall k, l :: 0 <= k < l < |p| ==> p[k] < p[l])
      && (forall i :: 0 <= i < |xs| && keep(xs[i]) ==> i in p)
  {
    KeptSound(xs, keep);
    KeptIncreasing(xs, keep);
    KeptComplete(xs, keep);
    CollectAt(xs, keep, make);
  }

  /** `item.get("title", "")` is truthy. */
  predicate Titled(x: Json) {
    x.JObj? && Truthy(Get(x.fields, "title", JStr("")))
  }

  function Field(x: Json, key: string): Json
    requires x.JObj?
  {
    Get(x.fields, key, JStr(""))
  }

  function DefaultItem(x: Json, i: nat): NewsItem {
    if x.JObj? then Item(TextOf(Field(x, "title")), TextOf(Field(x, "url")), i) else Item("", "", i)
  }

  function VVHanItem(x: Json, i: nat): NewsItem {
    if x.JObj? then Item(TextOf(Field(x, "title")), TextOf(Field(x, "url")), IntOf(Get(x.fields, "index", JInt(0))))
    else Item("", "", 0)
  }

  function OIOWebItem(x: Json, i: nat): NewsItem {
    if x.JObj? then Item(TextOf(Field(x, "title")), TextOf(Field(x, "url")), i).(hot := TextOf(Field(x, "hot")))
    else Item("", "", i)
  }

  /** `f"{year}年：{title}"` when the year is truthy, else the bare title. */
  function HistoryTitle(year: Json, title: string): string {
    if Truthy(year) then TextOf(year) + "年：" + title else title
  }

  function HistoryItem(x: Json, i: nat): NewsItem {
    if x.JObj? then Item(HistoryTitle(Field(x, "year"), TextOf(Field(x, "title"))), "", i) else Item("", "", i)
  }

  predicate EntryTitled(e: FeedEntry) { e.title.Some? && e.title.value != "" }

  function RssItem(e: FeedEntry, i: nat): NewsItem {
    NewsItem(e.title.GetOr(""), e.link.GetOr(""), i, "", e.description.GetOr(""), "", e.published.GetOr(""))
  }

  /** The list under `data`, if the payload is a dict holding one. */
  function DataList(data: Json, default: Json): seq<Json> {
    if data.JObj? then
      var items := Get(data.fields, "data", default);
      if items.JArr? then items.elems else []
    else []
  }

  /** The exception each parser raises from its `except Exception` clause. */
  function Wrapped(prefix: string, inner: string, parser: string): Exc {
    ApiParse(prefix + inner, "", parser)
  }

  // ----- the parsers -----

  function ParseDefault(r: HttpResponse, clock: Clock): (res: Result<NewsData, Exc>)
    ensures res.Failure? <==> r.body.Failure?
    ensures res.Failure? ==> res.error.ApiParse? && res.error.parser == "default" && res.error.apiUrl == ""
    ensures res.Success? ==>
      res.value.title == "日报" && res.value.source == r.host && res.value.updateTime == clock.stamp
      && res.value.binaryData == None
  {
    match r.body
    case Failure(err) => Failure(Wrapped("默认解析器解析失败: ", err, "default"))
    case Success(data) =>
      Success(NewNewsData("日报", Collect(DataList(data, JArr([])), Titled, DefaultItem), clock.stamp, r.host, clock.stamp))
  }

  function ParseVVHan(r: HttpResponse, clock: Clock): (res: Result<NewsData, Exc>)
    ensures res.Failure? <==>
      r.body.Failure? || !r.body.value.JObj? || !EqualsOne(Get(r.body.value.fields, "success", JNull))
    ensures res.Failure? ==> res.error.ApiParse? && res.error.parser == "vvhan" && res.error.apiUrl == ""
    ensures res.Success? ==> res.value.title == "知乎日报" && res.value.source == "知乎" && res.value.binaryData == None
  {
    match r.body
    case Failure(err) => Failure(Wrapped("VVHan知乎日报解析器解析失败: ", err, "vvhan"))
    case Success(data) =>
      if !data.JObj? || !EqualsOne(Get(data.fields, "success", JNull)) then
        Failure(Wrapped("VVHan知乎日报解析器解析失败: ", ErrorMessage(ApiParse("API响应格式错误", "", "vvhan")), "vvhan"))
      else
        var stamp := Get(data.fields, "update_time", JStr(clock.stamp));
        Success(NewNewsData("知乎日报", Collect(DataList(data, JArr([])), Titled, VVHanItem),
                            if Truthy(stamp) then TextOf(stamp) else "", "知乎", clock.stamp))
  }

  function ParseOIOWeb(r: HttpResponse, clock: Clock): (res: Result<NewsData, Exc>)
    ensures res.Failure? <==> r.body.Failure?
    ensures res.Failure? ==> res.error.ApiParse? && res.error.parser == "oioweb" && res.error.apiUrl == ""
    ensures res.Success? ==>
      res.value.title == "知乎日报" && res.value.source == "知乎" && res.value.updateTime == clock.stamp
      && res.value.binaryData == None
  {
    match r.body
    case Failure(err) => Failure(Wrapped("OIOWeb知乎日报解析器解析失败: ", err, "oioweb"))
    case Success(data) =>
      Success(NewNewsData("知乎日报", Collect(DataList(data, JNull), Titled, OIOWebItem), clock.stamp, "知乎", clock.stamp))
  }

  function ParseRss(r: HttpResponse, clock: Clock): (res: Result<NewsData, Exc>)
    ensures res.Failure? <==> r.feed.Failure?
    ensures res.Failure? ==> res.error.ApiParse? && res.error.parser == "rss" && res.error.apiUrl == ""
    ensures res.Success? ==>
      res.value.title == r.feed.value.title.GetOr("RSS日报") && res.value.source == r.feed.value.title.GetOr("RSS")
      && res.value.updateTime == clock.stamp && res.value.binaryData == None
  {
    match r.feed
    case Failure(err) => Failure(Wrapped("RSS解析器解析失败: ", err, "rss"))
    case Success(feed) =>
      Success(NewNewsData(feed.title.GetOr("RSS日报"), Collect(Prefix(feed.entries, 20), EntryTitled, RssItem),
                          clock.stamp, feed.title.GetOr("RSS"), clock.stamp))
  }

  function ParseBinaryImage(r: HttpResponse, clock: Clock): (res: Result<NewsData, Exc>)
    ensures res.Failure? <==> !StartsWith(Header(r, "content-type", ""), "image/")
    ensures res.Failure? ==> res.error.ApiParse? && res.error.parser == "binary_image" && res.error.apiUrl == ""
    ensures res.Success? ==>
      && res.value.binaryData == Some(r.content) && res.value.title == "图片日报" && res.value.source == r.host
      && |res.value.items| == 1 && res.value.items[0].url == r.url && res.value.items[0].imageUrl == r.url
      && res.value.items[0].index == 1
  {
    var contentType := Header(r, "content-type", "");
    if !StartsWith(contentType, "image/") then
      Failure(Wrapped("二进制图片解析器解析失败: ",
                      ErrorMessage(ApiParse("响应不是图片，Content-Type: " + contentType, "", "binary_image")),
                      "binary_image"))
    else
      var item := Item("图片日报", r.url, 1).(imageUrl := r.url);
      Success(NewNewsData("图片日报", [item], clock.stamp, r.host, clock.stamp).(binaryData := Some(r.content)))
  }

  function ParseHistoryToday(r: HttpResponse, clock: Clock): (res: Result<NewsData, Exc>)
    ensures res.Failure? <==> r.body.Failure?
    ensures res.Failure? ==> res.error.ApiParse? && res.error.parser == "history_today" && res.error.apiUrl == ""
    ensures res.Success? ==>
      res.value.title == "历史上的今天 (" + clock.today + ")" && res.value.source == "历史上的今天"
      && res.value.updateTime == clock.stamp && res.value.binaryData == None
  {
    match r.body
    case Failure(err) => Failure(Wrapped("历史上的今天解析器解析失败: ", err, "history_today"))
    case Success(data) =>
      Success(NewNewsData("历史上的今天 (" + clock.today + ")", Collect(DataList(data, JNull), Titled, HistoryItem),
                          clock.stamp, "历史上的今天", clock.stamp))
  }

  /** `get_parser(name).parse(response)`. */
  function Parse(k: ParserKind, r: HttpResponse, clock: Clock): (res: Result<NewsData, Exc>)
    ensures res.Failure? ==> res.error.ApiParse? && res.error.parser == ParserName(k) && res.error.apiUrl == ""
    ensures k == BinaryImageParser || res.Failure? || res.value.binaryData == None
  {
    match k
    case DefaultParser => ParseDefault(r, clock)
    case VVHanZhihuParser => ParseVVHan(r, clock)
    case OIOWebZhihuParser => ParseOIOWeb(r, clock)
    case RssParser => ParseRss(r, clock)
    case BinaryImageParser => ParseBinaryImage(r, clock)
    case HistoryTodayParser => ParseHistoryToday(r, clock)
  }

  // ----- what the parsers promise -----

  /**
   * Each parser fails exactly when its input is unusable, and then raises an
   * `APIResponseParseException` carrying its own name and no URL.
   */
  lemma ParseFailures(k: ParserKind, r: HttpResponse, clock: Clock)
    ensures var res := Parse(k, r, clock);
      && (res.Failure? ==> res.error.ApiParse? && res.error.parser == ParserName(k) && res.error.apiUrl == "")
      && (k in {DefaultParser, OIOWebZhihuParser, HistoryTodayParser} ==> (res.Failure? <==> r.body.Failure?))
      && (k == RssParser ==> (res.Failure? <==> r.feed.Failure?))
      && (k == VVHanZhihuParser ==> (res.Failure? <==>
            r.body.Failure? || !r.body.value.JObj? || !EqualsOne(Get(r.body.value.fields, "success", JNull))))
      && (k == BinaryImageParser ==> (res.Failure? <==> !StartsWith(Header(r, "content-type", ""), "image/")))
  {
  }

  /** A decoded payload that is not a dict, or whose `data` is not a list, yields no items and no error. */
  lemma DefaultToleratesShape(r: HttpResponse, clock: Clock)
    requires r.body.Success?
    requires !r.body.value.JObj? || !Get(r.body.value.fields, "data", JArr([])).JArr?
    ensures ParseDefault(r, clock).Success? && ParseDefault(r, clock).value.items == []
  {
  }

  /**
   * The default parser keeps an entry iff it is a dict with a truthy title,
   * in order, numbering it by its 1-based position in the original list.
   */
  lemma DefaultItems(r: HttpResponse, clock: Clock)
    requires r.body.Success?
    ensures var xs, items := DataList(r.body.value, JArr([])), ParseDefault(r, clock).value.items;
      var p := Kept(xs, Titled);
      && |items| == |p|
      && (forall k :: 0 <= k < |p| ==>
            && p[k] < |xs| && Titled(xs[p[k]]) && items[k].index == p[k] + 1
            && items[k].title == TextOf(Field(xs[p[k]], "title")) && items[k].url == TextOf(Field(xs[p[k]], "url")))
      && (forall i :: 0 <= i < |xs| && Titled(xs[i]) ==> i in p)
      && (forall k, l :: 0 <= k < l < |items| ==> items[k].index < items[l].index)
  {
    CollectSpec(DataList(r.body.value, JArr([])), Titled, DefaultItem);
  }

  /** VVHan items copy their `index` field, 0 when it is missing. */
  lemma VVHanIndexCopied(r: HttpResponse, clock: Clock)
    requires ParseVVHan(r, clock).Success?
    ensures var xs, items := DataList(r.body.value, JArr([])), ParseVVHan(r, clock).value.items;
      var p := Kept(xs, Titled);
      && |items| == |p|
      && forall k :: 0 <= k < |p| ==>
           && p[k] < |xs| && Titled(xs[p[k]])
           && items[k].index == IntOf(Get(xs[p[k]].fields, "index", JInt(0)))
           && (!HasKey(xs[p[k]].fields, "index") ==> items[k].index == 0)
  {
    CollectSpec(DataList(r.body.value, JArr([])), Titled, VVHanItem);
  }

  /** OIOWeb reads items only when a `data` key exists, and carries each item's `hot` value. */
  lemma OIOWebItems(r: HttpResponse, clock: Clock)
    requires r.body.Success?
    ensures var data, items := r.body.value, ParseOIOWeb(r, clock).value.items;
      && (!(data.JObj? && HasKey(data.fields, "data")) ==> items == [])
      && var xs, p := DataList(data, JNull), Kept(DataList(data, JNull), Titled);
         |items| == |p| && forall k :: 0 <= k < |p| ==>
           p[k] < |xs| && Titled(xs[p[k]]) && items[k].hot == TextOf(Field(xs[p[k]], "hot"))
  {
    var xs := DataList(r.body.value, JNull);
    var items := ParseOIOWeb(r, clock).value.items;
    var p := Kept(xs, Titled);
    assert items == Collect(xs, Titled, OIOWebItem);
    CollectSpec(xs, Titled, OIOWebItem);
    forall k | 0 <= k < |p|
      ensures p[k] < |xs| && Titled(xs[p[k]]) && items[k].hot == TextOf(Field(xs[p[k]], "hot"))
    {
      assert items[k] == OIOWebItem(xs[p[k]], p[k] + 1);
    }
  }

  /** A binary image response becomes exactly one item pointing at the request URL, with the body attached. */
  lemma BinaryImageItem(r: HttpResponse, clock: Clock)
    requires StartsWith(Header(r, "content-type", ""), "image/")
    ensures var d := ParseBinaryImage(r, clock);
      && d.Success? && |d.value.items| == 1
      && d.value.items[0].index == 1 && d.value.items[0].imageUrl == r.url && d.value.items[0].url == r.url
      && d.value.binaryData == Some(r.content)
  {
  }

  /** History titles prefix the year when it is truthy and are bare otherwise. */
  lemma HistoryTitles(r: HttpResponse, clock: Clock)
    requires r.body.Success?
    ensures var xs, items := DataList(r.body.value, JNull), ParseHistoryToday(r, clock).value.items;
      var p := Kept(xs, Titled);
      && |items| == |p|
      && forall k :: 0 <= k < |p| ==>
           p[k] < |xs| && Titled(xs[p[k]]) &&
           var year, title := Field(xs[p[k]], "year"), TextOf(Field(xs[p[k]], "title"));
           && (Truthy(year) ==> items[k].title == TextOf(year) + "年：" + title)
           && (!Truthy(year) ==> items[k].title == title)
  {
    var xs := DataList(r.body.value, JNull);
    var items := ParseHistoryToday(r, clock).value.items;
    var p := Kept(xs, Titled);
    assert items == Collect(xs, Titled, HistoryItem);
    CollectSpec(xs, Titled, HistoryItem);
    forall k | 0 <= k < |p|
      ensures p[k] < |xs| && Titled(xs[p[k]]) && items[k].title == HistoryTitle(Field(xs[p[k]], "year"), TextOf(Field(xs[p[k]], "title")))
    {
      assert items[k] == HistoryItem(xs[p[k]], p[k] + 1);
    }
  }

  /** The RSS parser looks at no more than the first 20 entries. */
  lemma RssAtMostTwenty(r: HttpResponse, clock: Clock)
    requires r.feed.Success?
    ensures |ParseRss(r, clock).value.items| <= 20
  {
    var es := Prefix(r.feed.value.entries, 20);
    CollectSpec(es, EntryTitled, RssItem);
    KeptBound(es, EntryTitled);
  }

  lemma {:induction false} KeptBound<T>(xs: seq<T>, keep: T -> bool)
    ensures |Kept(xs, keep)| <= |xs|
  {
    if |xs| > 0 {
      KeptBound(xs[..|xs| - 1], keep);
    }
  }
}
