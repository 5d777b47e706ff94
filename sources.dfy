/**
 * `BaseNewsSource` and the `news_sources` registry of api/sources/base.py:
 * format validation, the cache-first `fetch`, `register_news_source` and
 * `get_news_source`.
 *
 * A requested format of `None` is written as the empty string; both are
 * falsy. What a concrete source's `fetch_data`, `generate_image` and
 * `generate_text` produce, and what the adapter module finds, are inputs.
 */
module Sources {
  import opened Wrappers
  import opened Models
  import opened Exceptions
  import opened Dicts
  import opened Cache

  /** `BaseNewsSource.__init__`: empty `formats` and `aliases` fall back to `["image", "text"]` and `[]`. */
  function NewSource(name: string, description: string, defaultFormat: string, formats: seq<string>, aliases: seq<string>)
    : (s: NewsSource)
    ensures s.name == name && s.description == description && s.defaultFormat == defaultFormat
    ensures s.formats == (if |formats| > 0 then formats else ["image", "text"]) && |s.formats| > 0
    ensures s.aliases == aliases
  {
    NewsSource(name, description, defaultFormat, if |formats| > 0 then formats else ["image", "text"], aliases)
  }

  // ----- validate_format -----

  /** `validate_format`: the request when it is non-empty and supported, else the default format. */
  function ValidateFormat(s: NewsSource, requested: string): (r: string)
    ensures r == requested || r == s.defaultFormat
  {
    if requested == "" || requested !in s.formats then s.defaultFormat else requested
  }

  /**
   * The request survives exactly when it is a non-empty supported format;
   * the result is supported whenever the default is, and validating twice
   * changes nothing.
   */
  lemma ValidateFormatSpec(s: NewsSource, requested: string)
    ensures ValidateFormat(s, requested) == requested
      <==> (requested != "" && requested in s.formats) || requested == s.defaultFormat
    ensures s.defaultFormat in s.formats ==> ValidateFormat(s, requested) in s.formats
    ensures ValidateFormat(s, ValidateFormat(s, requested)) == ValidateFormat(s, requested)
  {
  }

  // ----- fetch -----

  /** The text message `fetch` answers with when anything fails. */
  function FailureMessage(name: string, e: Exc): (m: Message)
    ensures |m| == 1 && m[0].Text?
  {
    [Text("获取" + name + "日报失败: " + ErrorMessage(e))]
  }

  /**
   * The `try` block of `fetch` after the cache: fetch the data, then render
   * it in the validated format; any other format raises `FormatTypeException`.
   */
  function Generated(
    s: NewsSource, format: string, fetched: Result<NewsData, Exc>,
    generateImage: NewsData -> Result<Message, Exc>, generateText: NewsData -> Result<Message, Exc>)
    : (r: Result<Message, Exc>)
    ensures fetched.Failure? ==> r == Failure(fetched.error)
    ensures fetched.Success? && format != "image" && format != "text" ==> r.Failure? && r.error.FormatType?
  {
    match fetched
    case Failure(e) => Failure(e)
    case Success(data) =>
      if format == "image" then generateImage(data)
      else if format == "text" then generateText(data)
      else Failure(FormatType("不支持的格式类型", format, s.formats))
  }

  /** What `news_cache.get` leaves in the cache: an expired entry under the key is dropped. */
  function AfterGet(c: map<string, CacheItem>, key: string, now: int): map<string, CacheItem> {
    if key in c && c[key].IsExpired(now) then c - {key} else c
  }

  /**
   * `fetch`: unless refreshing, a fresh non-empty cached message is answered
   * at once; otherwise the message is generated and cached under (name,
   * validated format) only when generation succeeds. A failure becomes an
   * error message and leaves the cache as the lookup left it; nothing is raised.
   */
  method Fetch(
    s: NewsSource, cache: NewsCache, formatType: string, forceRefresh: bool,
    fetched: Result<NewsData, Exc>,
    generateImage: NewsData -> Result<Message, Exc>, generateText: NewsData -> Result<Message, Exc>,
    now: int)
    returns (m: Message)
    modifies cache
    ensures
      var format := ValidateFormat(s, formatType);
      var key := CacheKey(s.name, format, None);
      var hit := !forceRefresh && key in old(cache.cache) && !old(cache.cache)[key].IsExpired(now)
        && |old(cache.cache)[key].data| > 0;
      var base := if forceRefresh then old(cache.cache) else AfterGet(old(cache.cache), key, now);
      var gen := Generated(s, format, fetched, generateImage, generateText);
      && (hit ==> m == old(cache.cache)[key].data && cache.cache == old(cache.cache))
      && (!hit && gen.Success? ==>
            m == gen.value && cache.cache == base[key := CacheItem(gen.value, now + cache.defaultExpireTime, now)])
      && (!hit && gen.Failure? ==> m == FailureMessage(s.name, gen.error) && cache.cache == base)
  {
    var format := ValidateFormat(s, formatType);
    if !forceRefresh {
      var cached := cache.Get(s.name, format, None, now);
      if cached.Some? && |cached.value| > 0 {
        return cached.value;
      }
    }
    var gen := Generated(s, format, fetched, generateImage, generateText);
    match gen {
      case Success(message) =>
        cache.Set(s.name, format, message, 0, None, now);
        m := message;
      case Failure(e) =>
        m := FailureMessage(s.name, e);
    }
  }

  // ----- the news_sources registry -----

  /** Bind each alias, in order, to the source unless the key is already taken. */
  function BindAliases(d: Dict<string, NewsSource>, aliases: seq<string>, s: NewsSource): Dict<string, NewsSource> {
    if |aliases| == 0 then d
    else
      var prior := BindAliases(d, aliases[..|aliases| - 1], s);
      var alias := aliases[|aliases| - 1];
      if alias in Keys(prior) then prior else Put(prior, alias, s)
  }

  /** `register_news_source`: the name is always (re)bound, each alias only if unused. */
  function Registered(d: Dict<string, NewsSource>, s: NewsSource): Dict<string, NewsSource> {
    BindAliases(Put(d, s.name, s), s.aliases, s)
  }

  /** An alias reads the source exactly when it was free before; other keys read as before. */
  lemma {:induction false} BindAliasesFind(d: Dict<string, NewsSource>, aliases: seq<string>, s: NewsSource, k: string)
    ensures Find(BindAliases(d, aliases, s), k) == if k in aliases && k !in Keys(d) then Some(s) else Find(d, k)
  {
    if |aliases| > 0 {
      var init := aliases[..|aliases| - 1];
      var alias := aliases[|aliases| - 1];
      var prior := BindAliases(d, init, s);
      BindAliasesFind(d, init, s, k);
      BindAliasesFind(d, init, s, alias);
      assert k in aliases <==> k in init || k == alias by {
        assert aliases == init + [alias];
      }
      if alias !in Keys(prior) {
        PutFind(prior, alias, s, k);
      }
    }
  }

  /** Binding aliases never repeats a key. */
  lemma {:induction false} BindAliasesDistinct(d: Dict<string, NewsSource>, aliases: seq<string>, s: NewsSource)
    requires Distinct(d)
    ensures Distinct(BindAliases(d, aliases, s))
  {
    if |aliases| > 0 {
      var init := aliases[..|aliases| - 1];
      var alias := aliases[|aliases| - 1];
      BindAliasesDistinct(d, init, s);
      var prior := BindAliases(d, init, s);
      if alias !in Keys(prior) {
        PutDistinct(prior, alias, s);
      }
    }
  }

  /**
   * After registration the name reads the new source, an alias reads it
   * exactly when no earlier key held it (first registration wins), and every
   * other key is untouched.
   */
  lemma RegisteredFind(d: Dict<string, NewsSource>, s: NewsSource, k: string)
    ensures Find(Registered(d, s), k)
      == if k == s.name || (k in s.aliases && k !in Keys(d)) then Some(s) else Find(d, k)
    ensures Distinct(d) ==> Distinct(Registered(d, s))
  {
    var named := Put(d, s.name, s);
    BindAliasesFind(named, s.aliases, s, k);
    PutFind(d, s.name, s, k);
    if Distinct(d) {
      PutDistinct(d, s.name, s);
      BindAliasesDistinct(named, s.aliases, s);
    }
  }

  /** `get_news_source`: an exact key of the registry first, then the adapter's answer. */
  function Lookup(d: Dict<string, NewsSource>, name: string, adapter: string -> Option<NewsSource>): (r: Option<NewsSource>)
    ensures name in Keys(d) ==> r == Find(d, name)
    ensures name !in Keys(d) ==> r == adapter(name)
  {
    match Find(d, name)
    case Some(s) => Some(s)
    case None => adapter(name)
  }

  /** A registered source is found under its own name whatever the adapter says. */
  lemma RegisterThenLookup(d: Dict<string, NewsSource>, s: NewsSource, adapter: string -> Option<NewsSource>)
    ensures Lookup(Registered(d, s), s.name, adapter) == Some(s)
    ensures forall a :: a in s.aliases && a !in Keys(d) ==> Lookup(Registered(d, s), a, adapter) == Some(s)
  {
    RegisteredFind(d, s, s.name);
    forall a | a in s.aliases && a !in Keys(d)
      ensures Lookup(Registered(d, s), a, adapter) == Some(s)
    {
      RegisteredFind(d, s, a);
    }
  }

  /** The module-level `news_sources` dict. */
  class SourceRegistry {
    var sources: Dict<string, NewsSource>

    constructor ()
      ensures sources == []
    {
      sources := [];
    }

    /** `register_news_source`. */
    method Register(s: NewsSource)
      modifies this
      ensures sources == Registered(old(sources), s)
    {
      sources := Put(sources, s.name, s);
      ghost var named := sources;
      for i := 0 to |s.aliases|
        invariant sources == BindAliases(named, s.aliases[..i], s)
      {
        assert s.aliases[..i + 1][..i] == s.aliases[..i];
        var alias := s.aliases[i];
        if alias !in Keys(sources) {
          sources := Put(sources, alias, s);
        }
      }
      assert s.aliases[..|s.aliases|] == s.aliases;
    }

    /** `get_news_source`. */
    function GetNewsSource(name: string, adapter: string -> Option<NewsSource>): (r: Option<NewsSource>)
      reads this
      ensures r == Lookup(sources, name, adapter)
    {
      Lookup(sources, name, adapter)
    }
  }
}
