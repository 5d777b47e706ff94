/**
 * api/handlers.py: the handler base class with its shared image and text
 * generators, the case-sensitive `NewsHandlerFactory`, the built-in IT之家,
 * 知乎日报 and 微博热搜 handlers, and `get_news_handler`.
 *
 * `render_news_to_image` is an input function answering the image bytes or
 * `None`; `get_today_date()` is the `date` parameter; whether the 微博
 * handler's imports succeeded is the `weiboAvailable` parameter.
 */
module Handlers {
  import opened Wrappers
  import opened PyText
  import opened Models
  import opened Exceptions
  import opened Dicts
  import opened Mixins
  import opened BaseHandler

  /** The size above which an image is re-rendered with fewer items: 1 MiB. */
  const MaxImageBytes: nat := 1024 * 1024

  /** `Message(MessageSegment.image(pic))`: `None` gives an image segment with no file. */
  function ImageOf(pic: Option<Bytes>): (m: Message)
    ensures |m| == 1 && (m[0].Image? <==> pic.Some?)
  {
    match pic
    case Some(b) => [Image(b)]
    case None => [NoFileImage]
  }

  /** `len(None)` inside the image generator. */
  const NoneLenError: Exc := TypeError("object of type 'NoneType' has no len()")

  // ----- _process_news_items -----

  /** `_process_news_items`: truncate when `max_items` is truthy, then fill a falsy index and an empty url with `#`. */
  method ProcessItems(data: NewsData, maxItems: int) returns (r: NewsData)
    ensures r == Processed(data, maxItems, true, true, "#")
  {
    r := ProcessNewsItems(data, maxItems, true, true, "#");
  }

  /** After processing every item has a truthy index and a url. */
  lemma ProcessItemsFills(data: NewsData, maxItems: int)
    requires maxItems >= 0
    ensures var r := Processed(data, maxItems, true, true, "#");
      forall i :: 0 <= i < |r.items| ==> r.items[i].index != 0 && r.items[i].url != ""
  {
    ProcessedSpec(data, maxItems, true, true, "#");
  }

  /** Filling an already filled list changes nothing. */
  lemma FilledTwice(items: seq<NewsItem>)
    ensures Filled(Filled(items, true, true, "#"), true, true, "#") == Filled(items, true, true, "#")
  {
    var once := Filled(items, true, true, "#");
    assert forall i :: 0 <= i < |once| ==> FillItem(once[i], i, true, true, "#") == once[i];
  }

  /**
   * Processing with `max_items` and then with `max_items // 2` is processing
   * once with `max_items // 2`: the re-render after an oversized image shows
   * the first half of the original items.
   */
  lemma HalvedItems(data: NewsData, maxItems: int)
    requires maxItems >= 2
    ensures Processed(Processed(data, maxItems, true, true, "#"), maxItems / 2, true, true, "#")
      == Processed(data, maxItems / 2, true, true, "#")
  {
    var half := maxItems / 2;
    var kept := Limited(data.items, maxItems);
    var once := Filled(kept, true, true, "#");
    if |once| > half {
      FilledPrefix(kept, half, true, true, "#");
      assert Prefix(kept, half) == Prefix(data.items, half);
    }
    assert Limited(once, half) == Filled(Limited(data.items, half), true, true, "#");
    FilledTwice(Limited(data.items, half));
  }

  // ----- _generate_standard_text -----

  /** The title line's text: the handler name and the date. */
  function DatedTitle(name: string, date: string): string {
    name + " (" + date + ")"
  }

  /** `_generate_standard_text`: at most `max_items` items, shortened titles, link lines and the reply hint. */
  function StandardText(name: string, date: string, data: NewsData, maxItems: int, titleMaxLength: int): Message {
    TextLayout(DatedTitle(name, date), Capped(data.items, maxItems), titleMaxLength, false, true, true)
  }

  method GenerateStandardText(name: string, date: string, data: NewsData, maxItems: int, titleMaxLength: int)
    returns (m: Message)
    ensures m == StandardText(name, date, data, maxItems, titleMaxLength)
  {
    var items := data.items;
    if |items| > maxItems {
      items := Prefix(items, maxItems);
    }
    m := LayOutText(DatedTitle(name, date), items, titleMaxLength, false, true, true);
  }

  // ----- _generate_standard_image -----

  /**
   * `_generate_standard_image`, where the handler's `generate_text` is the
   * standard one with its defaults: process and render; a `None` render
   * fails at `len(pic)` and falls back to text on the processed data (or
   * re-raises); an image over 1 MiB is rendered once more from `max_items // 2`
   * items, whatever that second render gives.
   */
  function StandardImage(
    name: string, date: string, data: NewsData, maxItems: int, fallbackToText: bool,
    render: NewsData -> Option<Bytes>)
    : (r: Result<Message, Exc>)
    ensures r.Failure? <==> render(Processed(data, maxItems, true, true, "#")).None? && !fallbackToText
    ensures r.Failure? ==> r.error == NoneLenError
    ensures r.Success? && render(Processed(data, maxItems, true, true, "#")).Some? ==> |r.value| == 1
  {
    var first := Processed(data, maxItems, true, true, "#");
    var pic := render(first);
    if pic.None? then
      if fallbackToText then Success(StandardText(name, date, first, 8, 50)) else Failure(NoneLenError)
    else if |pic.value| > MaxImageBytes then
      Success(ImageOf(render(Processed(first, maxItems / 2, true, true, "#"))))
    else
      Success([Image(pic.value)])
  }

  method GenerateStandardImage(
    name: string, date: string, data: NewsData, maxItems: int, fallbackToText: bool,
    render: NewsData -> Option<Bytes>)
    returns (r: Result<Message, Exc>)
    ensures r == StandardImage(name, date, data, maxItems, fallbackToText, render)
  {
    var processed := ProcessItems(data, maxItems);
    var pic := render(processed);
    if pic.None? {
      if fallbackToText {
        var text := GenerateStandardText(name, date, processed, 8, 50);
        return Success(text);
      }
      return Failure(NoneLenError);
    }
    if |pic.value| > MaxImageBytes {
      processed := ProcessItems(processed, maxItems / 2);
      pic := render(processed);
    }
    return Success(ImageOf(pic));
  }

  /**
   * The generator fails only when the first render gives nothing and there is
   * no fallback; a first image within 1 MiB is sent as it is; an oversized one
   * is replaced by the render of the first `max_items // 2` processed items;
   * the fallback text lists at most eight items, each with a link line.
   */
  lemma StandardImageSpec(
    name: string, date: string, data: NewsData, maxItems: int, fallbackToText: bool,
    render: NewsData -> Option<Bytes>)
    requires maxItems >= 2
    ensures var first := Processed(data, maxItems, true, true, "#");
      var r := StandardImage(name, date, data, maxItems, fallbackToText, render);
      && (r.Failure? <==> render(first).None? && !fallbackToText)
      && (r.Failure? ==> r.error.TypeError?)
      && (Fits(render(first), MaxImageBytes) ==> r == Success([Image(render(first).value)]))
      && (render(first).Some? && |render(first).value| > MaxImageBytes ==>
            r == Success(ImageOf(render(Processed(data, maxItems / 2, true, true, "#")))))
      && (render(first).None? && fallbackToText ==>
            && r == Success(StandardText(name, date, first, 8, 50))
            && var shown := Capped(first.items, 8);
               |shown| <= 8 && forall i :: 0 <= i < |shown| ==> shown[i].url != "")
  {
    HalvedItems(data, maxItems);
    ProcessItemsFills(data, maxItems);
  }

  // ----- the case-sensitive factory -----

  /** This factory uses names as they are. */
  function Same(name: string): string { name }

  /**
   * The case-sensitive `NewsHandlerFactory` of api/handlers.py.
   * The original keeps `_handlers` and `_aliases` as class attributes reached
   * through classmethods, so the whole process shares one registry; here that
   * registry is the field of one factory object, and every registration and
   * lookup is meant to go through that single object.
   */
  class NewsHandlerFactory {
    var registry: Registry

    ghost predicate Valid()
      reads this
    {
      Resolves(registry)
    }

    constructor ()
      ensures Valid() && registry == Registry([], [])
    {
      registry := Registry([], []);
    }

    /** `register_handler`: the name and each alias exactly as given. */
    method RegisterHandler(h: Handler)
      requires Valid()
      modifies this
      ensures Valid() && registry == Register(old(registry), h, Same)
    {
      RegisterResolves(registry, h, Same);
      var aliases := BindAliasKeys(registry.aliases, h.aliases, h.name, Same);
      registry := Registry(Put(registry.handlers, h.name, h), aliases);
    }

    /** `get_handler`: names before aliases. */
    function GetHandler(name: string): (r: Option<Handler>)
      requires Valid()
      reads this
      ensures r == Lookup(registry, name)
    {
      Lookup(registry, name)
    }

    /** `get_all_handlers`: a copy of `_handlers`. */
    method GetAllHandlers() returns (copy: Dict<string, Handler>)
      ensures copy == registry.handlers
    {
      copy := registry.handlers;
    }
  }

  /** Case-sensitive: after registering h, its name and every alias that is not a registered name find h. */
  lemma ExactLookup(r: Registry, h: Handler, x: string)
    requires Resolves(r)
    ensures Resolves(Register(r, h, Same))
    ensures x == h.name ==> Lookup(Register(r, h, Same), x) == Some(h)
    ensures x in h.aliases && x !in Keys(r.handlers) ==> Lookup(Register(r, h, Same), x) == Some(h)
  {
    RegisterLookup(r, h, Same, x);
    if x in h.aliases {
      var i :| 0 <= i < |h.aliases| && h.aliases[i] == x;
      assert Normed(Same, h.aliases)[i] == x;
    }
  }

  // ----- the built-in handlers and get_news_handler -----

  const ItHome: Handler := Handler("IT之家", ["ithome", "it之家", "it", "IT"])
  const Zhihu: Handler := Handler("知乎日报", [])
  const WeiboHot: Handler := Handler("微博热搜", ["weibo", "微博", "热搜"])

  /**
   * `get_news_handler`: "IT" in any case is IT之家, the two names with their
   * own branch next, then the factory with the name as given, lower-cased
   * and capitalised. The answer is None exactly when no special case applies
   * and no spelling is a key of the factory; a name the factory knows as given
   * gets what the factory holds under it.
   */
  function NewsHandlerFor(r: Registry, name: string, weiboAvailable: bool): (h: Option<Handler>)
    requires Resolves(r)
    ensures var special := Upper(name) == "IT" || name == Zhihu.name || (name == WeiboHot.name && weiboAvailable);
      var known := (name in Keys(r.handlers) || name in Keys(r.aliases))
        || (Lower(name) in Keys(r.handlers) || Lower(name) in Keys(r.aliases))
        || (Capitalize(name) in Keys(r.handlers) || Capitalize(name) in Keys(r.aliases));
      && (h.None? <==> !special && !known)
      && (!special && (name in Keys(r.handlers) || name in Keys(r.aliases)) ==> h == Lookup(r, name))
  {
    if Upper(name) == "IT" then Some(ItHome)
    else if name == Zhihu.name then Some(Zhihu)
    else if name == WeiboHot.name && weiboAvailable then Some(WeiboHot)
    else if Lookup(r, name).Some? then Lookup(r, name)
    else if Lookup(r, Lower(name)).Some? then Lookup(r, Lower(name))
    else Lookup(r, Capitalize(name))
  }

  /** A name whose upper-case form is "IT" (it, It, iT, IT) always gives IT之家, whatever the factory holds. */
  lemma AnyCaseOfIt(r: Registry, name: string, weiboAvailable: bool)
    requires Resolves(r)
    requires |name| == 2 && (name[0] == 'i' || name[0] == 'I') && (name[1] == 't' || name[1] == 'T')
    ensures NewsHandlerFor(r, name, weiboAvailable) == Some(ItHome)
  {
    assert Upper(name) == "IT";
  }

  // ----- the 微博 handler's own get_news_item_by_index and get_news_detail -----

  /** `WeiboHotNewsHandler.get_news_item_by_index`: purely by 1-based position. */
  function WeiboItemByIndex(items: seq<NewsItem>, index: int): (r: Option<NewsItem>)
    ensures r.Some? <==> 1 <= index <= |items|
    ensures r.Some? ==> r.value == items[index - 1] && r.value in items
  {
    if |items| == 0 || index < 1 || index > |items| then None else Some(items[index - 1])
  }

  method GetWeiboItemByIndex(fetched: Result<NewsData, Exc>, index: int) returns (r: Option<NewsItem>)
    ensures fetched.Failure? ==> r == None
    ensures fetched.Success? ==> r == WeiboItemByIndex(fetched.value.items, index)
  {
    if fetched.Failure? {
      return None;
    }
    var items := fetched.value.items;
    if |items| == 0 || index < 1 || index > |items| {
      return None;
    }
    return Some(items[index - 1]);
  }

  /** When every item's index is its position, the positional lookup agrees with the base class's search. */
  lemma WeiboAgreesWhenNumbered(items: seq<NewsItem>, index: int)
    requires forall k :: 0 <= k < |items| ==> items[k].index == k + 1
    ensures WeiboItemByIndex(items, index) == ItemByIndex(items, index)
  {
    if 1 <= index <= |items| {
      FirstIndexedAt(items, index, index - 1);
    } else {
      FirstIndexedAt(items, index, |items|);
    }
  }

  /**
   * `get_news_detail`: no url, or a blank cookie, is answered with a notice;
   * otherwise the fetched detail, a notice when it is empty, or the error.
   */
  function WeiboDetail(item: NewsItem, cookie: string, getDetail: string -> Result<string, Exc>): (r: string)
    ensures item.url == "" ==> r == "该热搜条目没有可访问的链接"
    ensures item.url != "" && Strip(cookie) == "" ==> r == "微博详情功能需要配置Cookie，请联系管理员配置 WEIBO_COOKIE 环境变量"
    ensures item.url != "" && Strip(cookie) != "" && getDetail(item.url).Success? && getDetail(item.url).value != ""
      ==> r == getDetail(item.url).value
    ensures item.url != "" && Strip(cookie) != "" && getDetail(item.url).Success? && getDetail(item.url).value == ""
      ==> r == "获取微博详情失败，可能是Cookie已失效或链接无效"
    ensures item.url != "" && Strip(cookie) != "" && getDetail(item.url).Failure?
      ==> r == "获取微博详情时发生错误: " + ErrorMessage(getDetail(item.url).error)
    ensures r != ""
  {
    if item.url == "" then "该热搜条目没有可访问的链接"
    else if Strip(cookie) == "" then "微博详情功能需要配置Cookie，请联系管理员配置 WEIBO_COOKIE 环境变量"
    else match getDetail(item.url)
      case Success(detail) => if detail != "" then detail else "获取微博详情失败，可能是Cookie已失效或链接无效"
      case Failure(e) => "获取微博详情时发生错误: " + ErrorMessage(e)
  }
}
