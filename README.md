# Multi-source daily news plugin, modelled in Dafny

This project models the retrieval core of `nonebot_plugin_multi_source_daily`, a
chat-bot plugin that fetches daily news digests (IT之家, 知乎日报, 微博热搜 and
others) from several HTTP APIs, caches the rendered messages, and sends them to
groups on a schedule. The model covers:

- **The source manager** (`ApiManager`, modules `ManagerState` and `Manager`).
  It keeps a per-type list of API source records, each unique by URL. It picks
  the enabled source of least priority, counts failures, and disables a source
  after `2 × max_retries` of them. After a failure it walks the remaining
  enabled sources in priority order. It also merges a saved status and reports
  the status. The class `Manager.ApiManager` is proved to change its state
  exactly as the functions of `ManagerState` say. Lemmas about those functions
  state what the plugin promises. The sort by priority, a stable insertion
  sort, is in `Priority`.
- **The request helper** (`Helpers`): the retry and backoff loop over scripted
  attempt outcomes, the time helpers, and the unknown-type hint. `utils/core.py`
  carries copies of these; they are modelled once.
- **The payload parsers** (`Parsers`) over decoded JSON (`JsonValue`), and their
  dispatch by name.
- **The TTL cache** (`Cache`) and the records of `models.py` (`Models`).
- **The error taxonomy** (`Exceptions`): message composition and the subclass
  relation that decides which `except` clause catches what.
- **The schedule stores.** `Scheduler.Store` keeps the table with its load-time
  cleaning. `Storage.ScheduleStorage` adds the `知乎` migration and `reset`.
  Both share the table operations of `Schedules` over Python-ordered dicts
  (`Dicts`). `Scheduler.ScheduleManager` adds the job-id encoding and
  `get_jobs`.
- **The registries.** `Sources` holds the news-source registry, format
  validation and the cache-first `fetch`. `BaseHandler` holds the
  case-insensitive handler factory and the lookup of an item by index.
  `Handlers` holds the case-sensitive factory of `api/handlers.py` and
  `get_news_handler`. Python's import system resolves `from .handlers import …`
  to the package `api/handlers/` rather than the module `api/handlers.py` beside
  it. So the live factory and `get_news_handler` are the case-insensitive ones
  in `BaseHandler`. `Handlers` models the module as written.
- **Item post-processing and the layouts**: `Mixins`, `Handlers`,
  `ItHomeHandler` and `ZhihuHandler`.
- **Python built-ins**: `str(int)`, `int(str)`, `str.split` and the case
  mappings are in `PyText`.

The network, the clock, the renderer and the files are parameters. A request
attempt is an outcome the caller supplies. The clock is a `now` argument in
whole seconds. The renderer is a function from a news collection to optional
bytes. The store files are their decoded contents on load and the list of
tables written on save. `api/handlers/__init__.py`'s `get_news_handler` is
`NewsHandlerFactory.get_handler` itself (`BaseHandler.NewsHandlerFactory.GetHandler`).
The base class's `get_news_item_by_index` in `api/handlers.py:41-56` is the
same code as in `api/handlers/base_handler.py:67-91`
(`BaseHandler.GetNewsItemByIndex`).

## Model

| member | source | states |
|---|---|---|
| Cache.KeyTypeOf | nonebot_plugin_multi_source_daily/utils/cache.py:22-26 | the key of a colon-free news type splits back to that type at its first colon and starts with `type:`, so `get_status` counts it under that type and `delete_by_type` removes it |
| Cache.CacheKeyInjective | nonebot_plugin_multi_source_daily/utils/cache.py:22-26 | for colon-free types and formats, two equal keys have equal type, format and API index: a pinned entry and a default entry never share a slot |
| Cache.CacheKey | nonebot_plugin_multi_source_daily/utils/cache.py:22-26 | the key begins with `type:format`, and has more exactly when an API index is pinned |
| Cache.KeyParts | nonebot_plugin_multi_source_daily/utils/cache.py:22-26 | a default key splits into exactly `[type, format]`; a pinned key splits into at least three parts headed by the type and the format |
| Cache.NewsCache.constructor | nonebot_plugin_multi_source_daily/utils/cache.py:17-20 | the cache starts empty and its default TTL is the given one, or the configured 3600 s when that is 0 |
| Cache.NewsCache.Get | nonebot_plugin_multi_source_daily/utils/cache.py:28-38 | a present, unexpired entry yields its message and leaves the cache alone; an expired one is deleted on this access and a miss is reported; an absent key is a miss |
| Cache.NewsCache.Set | nonebot_plugin_multi_source_daily/utils/cache.py:40-59 | the key is overwritten unconditionally with expiry `now + ttl`, where a ttl of 0 falls back to the default; no other key changes |
| Cache.NewsCache.Delete | nonebot_plugin_multi_source_daily/utils/cache.py:61-68 | answers whether the key existed, and removes that key and no other |
| Cache.NewsCache.DeleteByType | nonebot_plugin_multi_source_daily/utils/cache.py:70-86 | removes exactly the keys starting with `type:`, keeps every other entry as it was, and returns how many it removed |
| Cache.NewsCache.DeleteAll | nonebot_plugin_multi_source_daily/utils/cache.py:79-81 | the deleting loop removes exactly the collected keys, leaves the others untouched, and counts one per key |
| Cache.NewsCache.Clear | nonebot_plugin_multi_source_daily/utils/cache.py:88-93 | returns the former number of entries and leaves the cache empty |
| Cache.NewsCache.ClearExpired | nonebot_plugin_multi_source_daily/utils/cache.py:95-111 | removes exactly the expired entries, keeps the fresh ones unchanged, and returns how many it removed |
| Cache.NewsCache.GetStatus | nonebot_plugin_multi_source_daily/utils/cache.py:113-125 | `total` is the number of entries; `types` has one key per news type present, each counting the keys of that type, and the counts add up to `total` |
| Cache.TallyOfAdd | nonebot_plugin_multi_source_daily/utils/cache.py:116-120 | counting one more key bumps its type's count, whatever order the keys of the dict are visited in |
| Cache.TallyOfSpec | nonebot_plugin_multi_source_daily/utils/cache.py:115-120 | the per-type counts of a key set hold exactly the key types, each with the number of keys of that type |
| Cache.TallyTotal | nonebot_plugin_multi_source_daily/utils/cache.py:115-123 | after one more key the per-type counts still add up to the number of keys seen |
| Models.NewsData.AddItem | nonebot_plugin_multi_source_daily/models.py:48-50 | the item is appended at the end, every earlier item keeps its position, and no other field changes |
| Models.NewNewsData | nonebot_plugin_multi_source_daily/models.py:35-46 | `update_time` is filled with the current time only when it was given empty; otherwise it is kept |
| Models.DefaultApiSource | nonebot_plugin_multi_source_daily/models.py:63-71 | the defaults are priority 1, parser `default`, enabled, `last_success` 0 and `failure_count` 0 |
| Models.ToDict | nonebot_plugin_multi_source_daily/models.py:126-131 | the dict has exactly the two keys, and `from_dict(to_dict(c)) == c` |
| Models.FromDict | nonebot_plugin_multi_source_daily/models.py:133-139 | a missing `schedule_time` reads as `00:00` and a missing `format_type` as `image`; present values are kept |
| Models.CacheItem.TimeToExpire | nonebot_plugin_multi_source_daily/models.py:150-157 | the time left is never negative, is 0 exactly at or past the expiry time, and otherwise reaches the expiry time from now |
| Models.ExpiryBoundary | nonebot_plugin_multi_source_daily/models.py:150-152 | `is_expired` is strict: an entry is still valid at exactly its expiry time and expired one second later |
| Models.CacheItem.IsExpired | nonebot_plugin_multi_source_daily/models.py:150-152 | the definition `is_expired` uses: strictly past the expiry time (no contract of its own; `ExpiryBoundary` and `TimeToExpire` state its boundary) |
| Exceptions.CatchesApi | nonebot_plugin_multi_source_daily/exceptions.py:9-72 | `except APIException` catches exactly plain API errors, timeouts, parse errors and no-source errors |
| Exceptions.CatchesSchedule | nonebot_plugin_multi_source_daily/exceptions.py:94-125 | `except ScheduleException` catches exactly schedule errors and invalid-time errors |
| Exceptions.CatchesReport | nonebot_plugin_multi_source_daily/exceptions.py:1-9 | every plugin exception is a `ReportException`; the built-in errors are not |
| Exceptions.CatchesEverything | nonebot_plugin_multi_source_daily/exceptions.py:1 | `except Exception` catches every error |
| Exceptions.SubclassTransitive | nonebot_plugin_multi_source_daily/exceptions.py:28-113 | the subclass relation is transitive, so a handler for a base class catches its subclasses' subclasses |
| Exceptions.ApiMessageSuffixes | nonebot_plugin_multi_source_daily/exceptions.py:18-25 | the message starts with the given text; the status suffix appears iff the code is truthy and the URL suffix iff the URL is truthy, status first; the text is unchanged iff neither is given |
| Exceptions.SuffixesAfter | nonebot_plugin_multi_source_daily/exceptions.py:20-24 | appending two optional non-empty suffixes keeps the message as a prefix and leaves it unchanged exactly when neither is appended |
| Exceptions.TimeoutHasNoStatus | nonebot_plugin_multi_source_daily/exceptions.py:31-41 | a timeout error never carries a status code; its message adds the timeout suffix when a timeout is given, then the URL suffix |
| Exceptions.ParseSuffixOrder | nonebot_plugin_multi_source_daily/exceptions.py:47-57 | a parse error's parser suffix comes before its URL suffix |
| Exceptions.NoAvailableOnlyType | nonebot_plugin_multi_source_daily/exceptions.py:63-72 | a no-source error carries only the news-type suffix: no status and no URL |
| Exceptions.InvalidTimeMessage | nonebot_plugin_multi_source_daily/exceptions.py:113-125 | an invalid-time error adds its time text and neither schedule suffix, and is caught as a `ScheduleException` |
| Exceptions.ScheduleSuffixes | nonebot_plugin_multi_source_daily/exceptions.py:97-110 | all four cases: no suffix when both are falsy; `，群组: {g}` alone for a truthy group id; `，日报类型: {t}` alone for a truthy type; both, group first, when both are truthy |
| Helpers.RequestHeaders | nonebot_plugin_multi_source_daily/utils/helpers.py:36-41 | the request carries every caller header with the caller's value, plus `User-Agent`, which is the default one unless the caller gives their own |
| Helpers.FetchWithRetry | nonebot_plugin_multi_source_daily/utils/helpers.py:21-100 | at most `max_retries + 1` GETs (a falsy `max_retries` takes the configured default); it succeeds iff some attempt within the budget answers 200, returning the first such response after failures only; otherwise it raises after the whole budget, with the error of the last attempt, or the "已重试" error when no attempt was allowed; the recorded sleeps are those `Sleeps` defines |
| Helpers.FailedAttempt | nonebot_plugin_multi_source_daily/utils/helpers.py:53-98 | one failed attempt: a retryable status keeps a plain API error with its status, a non-retryable status is re-raised inside the `try` and wrapped by the generic handler with no status, a timeout gives the timeout error; a numeric `Retry-After` on a retryable status is slept as given and does not grow the delay, every other failure sleeps the current delay and grows it once |
| Helpers.SleepsSpec | nonebot_plugin_multi_source_daily/utils/helpers.py:66-98 | one sleep per failed attempt; the i-th is a server-given pause exactly when that attempt was a retryable status with a numeric `Retry-After`, otherwise it is the backoff delay 1.5^k where k counts the earlier backoff sleeps |
| Helpers.BackoffIncreasing | nonebot_plugin_multi_source_daily/utils/helpers.py:70-98 | each backoff sleep is strictly longer than every earlier one: the delay grows by one factor of 1.5 per backoff |
| Helpers.NonRetryableRetried | nonebot_plugin_multi_source_daily/utils/helpers.py:74-98 | a non-retryable, non-200 status still fails its attempt, leaves an API error without a status code, and sleeps the backoff delay before the next try |
| Helpers.FormatTime | nonebot_plugin_multi_source_daily/utils/helpers.py:129-131 | a valid time formats as five characters: two digits, a colon, two digits |
| Helpers.ValidTime | nonebot_plugin_multi_source_daily/utils/helpers.py:124-126 | the definition `validate_time` uses: an hour in 0..23 and a minute in 0..59 (no contract of its own; `FormatTime` and `ParseFormatRoundTrip` state what holds for valid times) |
| Helpers.ParseFormatRoundTrip | nonebot_plugin_multi_source_daily/utils/helpers.py:103-131 | for every valid hour and minute, `parse_time(format_time(h, m)) == (h, m)` |
| Helpers.ParseJoined | nonebot_plugin_multi_source_daily/utils/helpers.py:106-108 | two digit pairs joined by one colon parse as the two numbers they spell |
| Helpers.ParseTime | nonebot_plugin_multi_source_daily/utils/helpers.py:103-121 | the only error is the invalid-time error carrying the input; a colon form with other than exactly one colon, and a colon-free form of other than 3 or 4 characters, are always rejected |
| Helpers.GenerateNewsTypeError | nonebot_plugin_multi_source_daily/utils/helpers.py:203-218 | the message is the fixed header followed by one hint line per distinct source name, in registration order, keyed by the first source registered under that name |
| Helpers.UniqueSources | nonebot_plugin_multi_source_daily/utils/helpers.py:205-208 | the first loop keeps a source iff no earlier source had its name |
| Helpers.JoinHintLines | nonebot_plugin_multi_source_daily/utils/helpers.py:212-216 | the second loop writes `▶ name`, the alias list when there is one, and a newline, once per kept source in order |
| Helpers.UniqueByNameSpec | nonebot_plugin_multi_source_daily/utils/helpers.py:205-208 | the listed sources have pairwise distinct names, every registered name is listed, and each listed source is the first registered under its name |
| PyText.IntRoundTrip | nonebot_plugin_multi_source_daily/utils/scheduler.py:58 | `int(str(i)) == i` for every integer, so a group id written into a job id or a cache key reads back as itself |
| PyText.Pad2RoundTrip | nonebot_plugin_multi_source_daily/utils/helpers.py:129-131 | `int(f"{n:02d}") == n` for every non-negative n |
| PyText.Pad2OfSmall | nonebot_plugin_multi_source_daily/utils/helpers.py:129-131 | below 100, `f"{n:02d}"` is exactly two digits |
| JsonValue.Lookup | nonebot_plugin_multi_source_daily/api/parsers.py:54-60 | `d.get(key)` finds a value exactly when the key is among the dict's fields |
| Parsers.GetParserSpec | nonebot_plugin_multi_source_daily/api/parsers.py:338-361 | every parser is found under its own `PARSERS` name; any other name gives `DefaultParser`; a non-default result was asked for by its own name |
| Parsers.GetParser | nonebot_plugin_multi_source_daily/api/parsers.py:348-361 | a registered parser name gives that parser, and any other name gives the default parser |
| Parsers.Parse | nonebot_plugin_multi_source_daily/api/parsers.py:338-361 | `get_parser(name).parse(response)`: a failure is always an `APIResponseParseException` naming that parser and no URL, and only the binary-image parser attaches bytes |
| Parsers.ParseDefault | nonebot_plugin_multi_source_daily/api/parsers.py:33-77 | fails exactly when the body is not JSON, with the default parser's exception; otherwise a `日报` collection from the response host, stamped now, with no bytes |
| Parsers.ParseVVHan | nonebot_plugin_multi_source_daily/api/parsers.py:82-134 | fails exactly when the body is not JSON, not a dict, or its `success` is not `== 1`, with the vvhan parser's exception; otherwise a `知乎日报` collection from `知乎` with no bytes |
| Parsers.ParseOIOWeb | nonebot_plugin_multi_source_daily/api/parsers.py:139-185 | fails exactly when the body is not JSON, with the oioweb parser's exception; otherwise a `知乎日报` collection from `知乎`, stamped now, with no bytes |
| Parsers.ParseRss | nonebot_plugin_multi_source_daily/api/parsers.py:190-236 | fails exactly when the feed cannot be read, with the rss parser's exception; otherwise a collection titled by the feed (`RSS日报` without one), from the feed title (`RSS` without one), stamped now, with no bytes |
| Parsers.ParseBinaryImage | nonebot_plugin_multi_source_daily/api/parsers.py:242-286 | fails exactly when the Content-Type does not start with `image/`, with the binary_image parser's exception; otherwise one item numbered 1 whose url and image url are the request URL, with the body attached as bytes |
| Parsers.ParseHistoryToday | nonebot_plugin_multi_source_daily/api/parsers.py:291-335 | fails exactly when the body is not JSON, with the history_today parser's exception; otherwise a collection titled `历史上的今天 (<today>)` from `历史上的今天`, stamped now, with no bytes |
| Parsers.CollectSpec | nonebot_plugin_multi_source_daily/api/parsers.py:54-68 | the shared `enumerate(..., 1)` loop yields exactly the kept entries, in their original order, each built with its 1-based position in the whole list, skipped entries included |
| Parsers.ParseFailures | nonebot_plugin_multi_source_daily/api/parsers.py:71-76 | every parser turns its failure into an `APIResponseParseException` carrying its own name and no URL; the JSON parsers fail exactly when the body does not decode, the RSS parser when the feed does not, VVHan also when `success` is not 1, and the image parser exactly when `Content-Type` does not start with `image/` |
| Parsers.DefaultToleratesShape | nonebot_plugin_multi_source_daily/api/parsers.py:54-70 | a payload that is not a dict, or whose `data` is not a list, gives zero items and no error |
| Parsers.DefaultItems | nonebot_plugin_multi_source_daily/api/parsers.py:54-68 | the default parser keeps an entry iff it is a dict with a truthy title, in order, indexed by its 1-based position in the original list, with its title and url; the indices strictly increase |
| Parsers.VVHanIndexCopied | nonebot_plugin_multi_source_daily/api/parsers.py:97-124 | a VVHan item copies its `index` field, 0 when it has none, and keeps exactly the titled entries |
| Parsers.OIOWebItems | nonebot_plugin_multi_source_daily/api/parsers.py:160-176 | items are read only when the payload holds a `data` key, and each carries its entry's `hot` value |
| Parsers.BinaryImageItem | nonebot_plugin_multi_source_daily/api/parsers.py:255-277 | an `image/` response gives exactly one item, index 1, whose url and image url are the request URL, with the body attached as binary data |
| Parsers.HistoryTitles | nonebot_plugin_multi_source_daily/api/parsers.py:318-327 | a history title is `{year}年：{title}` when the year is truthy and the bare title otherwise |
| Parsers.RssAtMostTwenty | nonebot_plugin_multi_source_daily/api/parsers.py:205-230 | the RSS parser looks at no more than the first 20 entries, so it yields at most 20 items |
| Manager.FindIndex | nonebot_plugin_multi_source_daily/api/manager.py:142-147 | the scan stops at the first source with the URL, or past the end when there is none |
| Manager.RecordOutcome | nonebot_plugin_multi_source_daily/api/manager.py:218-229 | the source after one recorded outcome is `Recorded`, and `status_changed` holds exactly on an enabled-to-disabled transition |
| Manager.ApiManager.constructor | nonebot_plugin_multi_source_daily/api/manager.py:25-29 | a new manager has no types, no status mirror and no saves, and keeps the configured retry count and failover switch |
| Manager.ApiManager.SaveStatus | nonebot_plugin_multi_source_daily/api/manager.py:44-68 | a save changes nothing but the count of saves |
| Manager.ApiManager.WriteStatus | nonebot_plugin_multi_source_daily/api/manager.py:232-237 | the status mirror entry is overwritten only where it already exists; sources and saves are untouched |
| Manager.ApiManager.WriteStatusEnabled | nonebot_plugin_multi_source_daily/api/manager.py:154-155 | the mirror's `enabled` flag is set only where the entry already exists; sources and saves are untouched |
| Manager.ApiManager.RegisterApiSource | nonebot_plugin_multi_source_daily/api/manager.py:106-124 | the new state is `Registered`: the type exists afterwards; a URL already present leaves the list as it was; otherwise the source is appended and mirrored; URLs stay unique |
| ManagerState.RegisteredSpec | nonebot_plugin_multi_source_daily/api/manager.py:106-124 | registering keeps other types, is a no-op for a known URL, appends a new URL at the end where it is then found, keeps URLs unique, and never saves |
| ManagerState.RegisteredSources | nonebot_plugin_multi_source_daily/api/manager.py:106-115 | after registering, each type's list is the old one, or the old one plus the new source at the end when its URL was new |
| Manager.ApiManager.RegisterApiSources | nonebot_plugin_multi_source_daily/api/manager.py:126-131 | the new state is the sources registered one after another, in order |
| ManagerState.RegisteredAllSpec | nonebot_plugin_multi_source_daily/api/manager.py:126-131 | after a batch every URL of it is found for the type, other types are untouched, URLs stay unique and nothing is saved |
| Manager.ApiManager.GetEnabledApiSources | nonebot_plugin_multi_source_daily/api/manager.py:137-140 | the result is `Enabled` of the type's list: exactly its enabled sources, in registration order |
| Manager.ApiManager.GetApiSource | nonebot_plugin_multi_source_daily/api/manager.py:142-147 | the first source of the type with the URL, or None |
| ManagerState.SourceIn | nonebot_plugin_multi_source_daily/api/manager.py:142-147 | a source is found exactly when one with that URL is in the list, and what is found has that URL |
| Manager.ApiManager.SetEnabledFlag | nonebot_plugin_multi_source_daily/api/manager.py:149-171 | the found flag and new state are `SetEnabled`, and every type's URLs stay unique |
| Manager.ApiManager.EnableApiSource | nonebot_plugin_multi_source_daily/api/manager.py:149-159 | `enable_api_source` is `SetEnabled` with true |
| Manager.ApiManager.DisableApiSource | nonebot_plugin_multi_source_daily/api/manager.py:161-171 | `disable_api_source` is `SetEnabled` with false |
| ManagerState.SetEnabledSpec | nonebot_plugin_multi_source_daily/api/manager.py:149-171 | answers whether the URL is registered for the type; then only that source's `enabled` flag changes, every other source of every type reads as before, URLs stay, and exactly one save happens |
| Manager.ApiManager.ResetApiSource | nonebot_plugin_multi_source_daily/api/manager.py:173-188 | the found flag and new state are `ResetOne` |
| ManagerState.ResetOneSpec | nonebot_plugin_multi_source_daily/api/manager.py:173-188 | answers whether the URL is registered; then that source is enabled with zero failures and `last_success` 0, every other source reads as before, and nothing is saved |
| Manager.ApiManager.ResetUrlList | nonebot_plugin_multi_source_daily/api/manager.py:193-195 | the loop resets the listed URLs one after another and counts those found |
| Manager.ApiManager.ResetApiSources | nonebot_plugin_multi_source_daily/api/manager.py:190-201 | the count and new state are `ResetType` |
| ManagerState.ResetUrlsSpec | nonebot_plugin_multi_source_daily/api/manager.py:190-195 | resetting the first n URLs of a type with unique URLs resets exactly those n sources, counts n, and leaves the other types and the saves alone |
| ManagerState.ResetTypeSpec | nonebot_plugin_multi_source_daily/api/manager.py:190-201 | `reset_api_sources` returns the number of the type's sources, resets every one of them, leaves other types alone, and saves once iff there was a source |
| ManagerState.AllResetTwice | nonebot_plugin_multi_source_daily/api/manager.py:173-188 | resetting is idempotent |
| Manager.ApiManager.ResetAllApiSources | nonebot_plugin_multi_source_daily/api/manager.py:203-210 | the count and new state are `ResetAll`: the types reset one after another, in dict order |
| ManagerState.ResetTypesSpec | nonebot_plugin_multi_source_daily/api/manager.py:203-210 | resetting a list of types answers the total number of their sources and resets exactly the sources of the listed types |
| ManagerState.ResetTypesWellFormed | nonebot_plugin_multi_source_daily/api/manager.py:203-210 | resetting types keeps every list's length and its URLs unique |
| Manager.ApiManager.UpdateApiSourceStatus | nonebot_plugin_multi_source_daily/api/manager.py:212-241 | the new state is `Updated`: an unknown URL changes nothing; otherwise the source is `Recorded`, its mirror entry rewritten, and a save happens only when it was just disabled |
| ManagerState.RecordedSpec | nonebot_plugin_multi_source_daily/api/manager.py:218-229 | a success zeroes the failure count and stamps now, never touching `enabled`; a failure adds exactly one and leaves the source enabled only if it was and is still under 2×max_retries; URL, priority and parser stay; a disable is exactly an enabled-to-disabled change |
| ManagerState.UpdatedSpec | nonebot_plugin_multi_source_daily/api/manager.py:212-241 | an unknown URL changes nothing; otherwise that source is recorded, a save happens exactly on its enabled-to-disabled change, every other source reads as before, and URLs stay |
| ManagerState.Updated | nonebot_plugin_multi_source_daily/api/manager.py:212-241 | an unknown URL changes nothing, and one call saves at most once |
| Manager.ApiManager.GetBestApiSource | nonebot_plugin_multi_source_daily/api/manager.py:243-254 | the result is `Best` of the type's list and the list itself is not reordered |
| ManagerState.BestSpec | nonebot_plugin_multi_source_daily/api/manager.py:243-254 | None iff no source is enabled; otherwise an enabled source of least priority, and among those the earliest registered |
| ManagerState.Best | nonebot_plugin_multi_source_daily/api/manager.py:243-254 | None exactly when no source is enabled; otherwise an enabled source of the list |
| Manager.ApiManager.TryCandidates | nonebot_plugin_multi_source_daily/api/manager.py:366-411 | the loop's result and request count are `ChainResult` and its new state is `ChainState`; `ChainResultSpec` says the result is the first parse or `NoAvailableAPIException`, and `ChainRecords` says each candidate before the first parse has one failure recorded, that candidate its success, and later ones nothing |
| ManagerState.ChainResultSpec | nonebot_plugin_multi_source_daily/api/manager.py:366-411 | the chain returns the data of the first candidate whose request parses, after one request per candidate up to it, and otherwise `NoAvailableAPIException` after one request per candidate |
| ManagerState.ChainKeeps | nonebot_plugin_multi_source_daily/api/manager.py:366-408 | the chain records outcomes only for the candidates it tries: a source that is not a candidate is left as it was |
| ManagerState.ChainRecords | nonebot_plugin_multi_source_daily/api/manager.py:394-408 | for candidates with distinct URLs and j the first that parses: candidate i < j is found with one failure recorded (`update_api_source_status(..., False)`, which may disable it), candidate j with its success recorded, and candidates after j unchanged |
| Manager.ApiManager.TryFailoverSources | nonebot_plugin_multi_source_daily/api/manager.py:345-411 | the new state, result and next request number are `Failover`: no candidates raises at once without a request; otherwise the candidates are tried in priority order, with what each records stated by `FailoverRecords` and `FailoverKeepsOthers` |
| ManagerState.CandidatesAvoid | nonebot_plugin_multi_source_daily/api/manager.py:355-363 | every failover candidate is enabled and is not the failed URL |
| ManagerState.FailoverKeepsFailed | nonebot_plugin_multi_source_daily/api/manager.py:345-411 | failover never touches the source that failed |
| ManagerState.CandidatesFound | nonebot_plugin_multi_source_daily/api/manager.py:355-363 | when the type's URLs are unique, so are the candidates', and each candidate is what `get_api_source` finds under its URL |
| ManagerState.FailoverRecords | nonebot_plugin_multi_source_daily/api/manager.py:366-408 | with unique URLs, j being the first candidate that parses: each candidate before j ends with `Recorded(c, false, ...)` (one more failure, disabled at 2×max_retries), candidate j with `Recorded(c, true, ...)` (failures zeroed, `last_success` stamped), and each candidate after j unchanged |
| ManagerState.FailoverKeepsOthers | nonebot_plugin_multi_source_daily/api/manager.py:366-408 | a source whose URL is no candidate's is found unchanged after a failover run |
| ManagerState.Failover | nonebot_plugin_multi_source_daily/api/manager.py:345-411 | its only failure is `NoAvailableAPIException`, after a request to every candidate; it sends at most one request per candidate; with no candidate it changes nothing and fails at once (what it records per candidate: `FailoverRecords`) |
| Manager.ApiManager.FetchData | nonebot_plugin_multi_source_daily/api/manager.py:256-343 | the new state and result are the `ManagerState.FetchData` function, with the auto-failover switch and retry count of the configuration |
| Manager.ApiManager.OnParseError | nonebot_plugin_multi_source_daily/api/manager.py:302-331 | a parse failure is recorded; with failover a successful chain answers; otherwise what was raised is caught by the outer `except APIException`, which records a second failure and, with failover on, runs the chain a second time |
| Manager.ApiManager.OnRequestError | nonebot_plugin_multi_source_daily/api/manager.py:319-343 | a request failure is recorded once; with failover the chain answers, without it the request error is re-raised |
| ManagerState.FetchData | nonebot_plugin_multi_source_daily/api/manager.py:263-265 | with no enabled source the call raises `NoAvailableAPIException` at once and changes nothing |
| ManagerState.ParseErrorWithoutFailover | nonebot_plugin_multi_source_daily/api/manager.py:302-320 | without failover a parse failure of the best source counts two failures against it and raises the parse error carrying its URL and parser |
| ManagerState.ParseErrorWithFailover | nonebot_plugin_multi_source_daily/api/manager.py:302-328 | with failover a parse failure of the best source counts one failure when the first chain succeeds, and its answer is returned; otherwise it counts two and the chain runs again |
| ManagerState.OtherOutcomeFailures | nonebot_plugin_multi_source_daily/api/manager.py:288-343 | a parsed response zeroes the best source's failures and returns its data; a request failure counts one failure and, without failover, is re-raised |
| ManagerState.UpdatedOnce | nonebot_plugin_multi_source_daily/api/manager.py:212-237 | recording an outcome for a registered URL leaves that source `Recorded` |
| ManagerState.BestIsFound | nonebot_plugin_multi_source_daily/api/manager.py:243-254 | the best source is registered under its URL, so recording its outcomes finds it |
| Manager.ApiManager.LoadStatus | nonebot_plugin_multi_source_daily/api/manager.py:70-104 | a missing file answers false and changes nothing; a decoded file answers true and the state is `Merged` |
| ManagerState.MergeEntriesSpec | nonebot_plugin_multi_source_daily/api/manager.py:85-98 | merging one type's saved entries changes only `enabled` flags of that type: lengths, URLs, priorities, parsers and counters stay, the mirror is untouched and nothing is saved |
| ManagerState.MergedSpec | nonebot_plugin_multi_source_daily/api/manager.py:80-98 | the merge changes only `enabled` flags: every list keeps its length and URLs, no type is added, the mirror is untouched and nothing is saved |
| ManagerState.Merged | nonebot_plugin_multi_source_daily/api/manager.py:80-98 | merging keeps the registered types, the status mirror and the save count |
| ManagerState.MergeLastEntry | nonebot_plugin_multi_source_daily/api/manager.py:85-97 | a saved `enabled` for a registered URL is what that source ends up with when it is the type's last entry |
| Manager.ApiManager.GetApiStatus | nonebot_plugin_multi_source_daily/api/manager.py:413-440 | the report is `ApiStatus` of the current state |
| ManagerState.ApiStatus | nonebot_plugin_multi_source_daily/api/manager.py:413-440 | a truthy type gives that type's report of its sources in order; no type gives one report per registered type, keyed in dict order; asking for all when "" is a type recurses without end and fails |
| Schedules.SetScheduleSpec | nonebot_plugin_multi_source_daily/utils/storage.py:106-118 | after `set_group_schedule` the (group, type) slot reads the new `{schedule_time, format_type}` entry and every other slot reads as before; the group is appended to the keys only when it was missing |
| Schedules.SetScheduleKeeps | nonebot_plugin_multi_source_daily/utils/storage.py:106-118 | setting a schedule keeps the table's keys distinct and never leaves a group empty |
| Schedules.RemoveScheduleSpec | nonebot_plugin_multi_source_daily/utils/storage.py:120-128 | `remove_group_schedule` returns true exactly when the slot was filled, leaves the table untouched when it returns false, and empties exactly that slot |
| Schedules.RemoveScheduleKeeps | nonebot_plugin_multi_source_daily/utils/storage.py:120-128 | removal keeps keys distinct and drops a group once its last schedule is gone, so no group is left empty |
| Schedules.CollectGroups | nonebot_plugin_multi_source_daily/utils/storage.py:145-152 | the loop over the groups returns the groups subscribed to the type, in table order |
| Schedules.GroupsWithSpec | nonebot_plugin_multi_source_daily/utils/storage.py:145-152 | a group is listed exactly when it holds a schedule of that type |
| Schedules.GroupsWithUnique | nonebot_plugin_multi_source_daily/utils/storage.py:145-152 | no group is listed twice |
| Scheduler.CleanLoaded | nonebot_plugin_multi_source_daily/utils/scheduler.py:324-342 | the cleaning loop of `_load_data` returns the loaded table with non-dict groups, schedules lacking `schedule_time` and groups left empty dropped |
| Scheduler.CleanSchedules | nonebot_plugin_multi_source_daily/utils/scheduler.py:333-337 | the inner loop keeps, in order, exactly the schedules of one group that are dicts holding `schedule_time` (`CleanGroup`) |
| Scheduler.CleanGroupFind | nonebot_plugin_multi_source_daily/utils/scheduler.py:333-337 | a cleaned group holds a type exactly when the loaded group held a schedule dict with `schedule_time` for it, and keeps keys distinct |
| Scheduler.CleanGroupsFind | nonebot_plugin_multi_source_daily/utils/scheduler.py:324-342 | a group survives cleaning exactly when it was a dict that keeps at least one schedule; the result has distinct keys and no empty group |
| Scheduler.CleanedSpec | nonebot_plugin_multi_source_daily/utils/scheduler.py:307-359 | what the loaded store answers for (group, type) is the decoded file's schedule when it is a dict holding `schedule_time`, and nothing otherwise; the store has distinct keys and no empty group |
| Scheduler.Store.constructor | nonebot_plugin_multi_source_daily/utils/scheduler.py:301-359 | a parsed file gives the cleaned table; a missing or undecodable file gives `{}` and writes `{}` back |
| Scheduler.Store.SaveData | nonebot_plugin_multi_source_daily/utils/scheduler.py:361-375 | `_save_data` writes the current table and changes nothing else |
| Scheduler.Store.GetGroupSchedules | nonebot_plugin_multi_source_daily/utils/scheduler.py:392-402 | the group's dict when the group is stored, else an empty dict |
| Scheduler.Store.GetGroupSchedule | nonebot_plugin_multi_source_daily/utils/scheduler.py:377-390 | the entry under the type in the group's dict, None when either key is missing |
| Scheduler.Store.GetAllGroupsByNewsType | nonebot_plugin_multi_source_daily/utils/scheduler.py:412-425 | returns exactly the groups subscribed to the type, in order |
| Scheduler.Store.SetGroupSchedule | nonebot_plugin_multi_source_daily/utils/scheduler.py:427-447 | the table becomes `SetSchedule` of the old one under the group id's decimal text, and is written |
| Scheduler.Store.RemoveGroupSchedule | nonebot_plugin_multi_source_daily/utils/scheduler.py:449-465 | the table becomes `RemoveSchedule` of the old one; it is written only when something was removed, which is also the result |
| Scheduler.JobIdSplit | nonebot_plugin_multi_source_daily/utils/scheduler.py:58 | the id `daily_news_{group}_{type}` starts with `daily_news_` and splits at `_` into `daily`, `news`, the group's digits and the type's own parts |
| Scheduler.IntTextNoUnderscore | nonebot_plugin_multi_source_daily/utils/scheduler.py:58 | a group id's decimal text holds no `_` |
| Scheduler.PrefixedSplit | nonebot_plugin_multi_source_daily/utils/scheduler.py:148 | splitting `daily_news_{g}_{t}` with an underscore-free g yields `daily`, `news`, g, then t's parts |
| Scheduler.SplitThree | nonebot_plugin_multi_source_daily/utils/scheduler.py:148 | `str.split` over three separator-free fields followed by a rest yields the three fields then the rest's parts |
| Scheduler.JobIdRoundTrip | nonebot_plugin_multi_source_daily/utils/scheduler.py:144-157 | decoding the id of (g, t) with an underscore-free type gives back (g, t), with no filter or filter g, and is skipped under any other group filter |
| Scheduler.JobIdTruncatesType | nonebot_plugin_multi_source_daily/utils/scheduler.py:148-157 | a type containing `_` is reported only up to its first `_` |
| Scheduler.ThreePartIdRaises | nonebot_plugin_multi_source_daily/utils/scheduler.py:149-157 | the id `daily_news_5` passes the `len(parts) < 3` guard and reaches `parts[3]`, an IndexError, while the corrected guard skips it |
| Scheduler.DecodeJob | nonebot_plugin_multi_source_daily/utils/scheduler.py:144-157 | with the corrected length guard (see Findings): a job is only raised on, with the `int()` error, when its third field is not an integer; a kept job is the id's group and type fields and matches the group filter; ids without the prefix are skipped |
| Scheduler.DecodeJobAsWritten | nonebot_plugin_multi_source_daily/utils/scheduler.py:144-157 | as written (see Findings): it agrees with the corrected decoding except on three-part ids, where an integer group that passes the filter raises `list index out of range` |
| Scheduler.JobsOf | nonebot_plugin_multi_source_daily/utils/scheduler.py:144-190 | with the corrected length guard (see Findings): the listing has at most one row per listed job, and its only failure is the `int()` error on a group field |
| Scheduler.JobsOfFiltered | nonebot_plugin_multi_source_daily/utils/scheduler.py:154-155 | with a group filter every reported job belongs to that group |
| Scheduler.JobsOfRaise | nonebot_plugin_multi_source_daily/utils/scheduler.py:152 | with the corrected length guard (see Findings): the first listed job whose group field is not an integer makes the listing raise the `int()` error |
| Scheduler.ScheduleManager.constructor | nonebot_plugin_multi_source_daily/utils/scheduler.py:20-26 | the manager holds the given store (or none); the scheduler's job ids are passed in |
| Scheduler.ScheduleManager.AddJob | nonebot_plugin_multi_source_daily/utils/scheduler.py:28-97 | an invalid hour or minute raises InvalidTimeFormatException with `"{hour}:{minute}"` and changes neither jobs nor store; otherwise the job id is (re)added, the store holds `format_time(hour, minute)` with the format under the group, and the store is written once with that content |
| Scheduler.ScheduleManager.RemoveJob | nonebot_plugin_multi_source_daily/utils/scheduler.py:99-131 | the job id is gone from the jobs, the store no longer holds the slot, the store is written exactly when it held the slot, and the result is true whether or not anything was there |
| Scheduler.ScheduleManager.GetJobs | nonebot_plugin_multi_source_daily/utils/scheduler.py:133-190 | with the corrected length guard (see Findings), the loop returns `JobsOf` over the listed jobs: each job decoded, filtered, described with its stored format (default `image`), `HH:MM` trigger time and the source description (default `未知日报`) |
| Storage.TableObject.constructor | nonebot_plugin_multi_source_daily/utils/storage.py:17-27 | a dict object holding the given table |
| Storage.Migrated | nonebot_plugin_multi_source_daily/utils/core.py:317-331 | migration keeps the groups and their order and migrates each group on its own |
| Storage.MigrateGroupSpec | nonebot_plugin_multi_source_daily/utils/core.py:320-324 | after migrating a group `知乎` is absent, `知乎日报` holds what `知乎` held, every other type is unchanged, and a non-empty group stays non-empty |
| Storage.MigratedFind | nonebot_plugin_multi_source_daily/utils/core.py:319-325 | looking a group up in the migrated table gives the migrated group, and the keys are unchanged |
| Storage.MigratedSpec | nonebot_plugin_multi_source_daily/utils/core.py:317-331 | after migration no group holds `知乎`, keys and non-emptiness are kept, and a table without `知乎` is left as it is |
| Storage.MigrateSchedules | nonebot_plugin_multi_source_daily/utils/core.py:320-324 | one group's migration step, which reports a move exactly when the group held `知乎` |
| Storage.MigrateTable | nonebot_plugin_multi_source_daily/utils/core.py:317-326 | the loop gives the migrated table and reports migration exactly when some group held `知乎` |
| Storage.OldKeyBeforeSpec | nonebot_plugin_multi_source_daily/utils/core.py:319-324 | the loop's flag after i groups is true exactly when one of the first i groups held `知乎` |
| Storage.ScheduleStorage.constructor | nonebot_plugin_multi_source_daily/utils/storage.py:17-27 | a decoded file gives its table; a missing or corrupt file gives `{}` and writes it back |
| Storage.ScheduleStorage.Save | nonebot_plugin_multi_source_daily/utils/storage.py:89-91 | writes the current table and changes nothing else |
| Storage.ScheduleStorage.GetGroupSchedules | nonebot_plugin_multi_source_daily/utils/storage.py:130-132 | the group's dict when the group is stored, else an empty dict |
| Storage.ScheduleStorage.GetGroupSchedule | nonebot_plugin_multi_source_daily/utils/storage.py:138-143 | the entry under the type in the group's dict, None when either key is missing |
| Storage.ScheduleStorage.SetGroupSchedule | nonebot_plugin_multi_source_daily/utils/storage.py:106-118 | the table becomes `SetSchedule` of the old one in the same dict object, and is written |
| Storage.ScheduleStorage.RemoveGroupSchedule | nonebot_plugin_multi_source_daily/utils/storage.py:120-128 | the table becomes `RemoveSchedule` of the old one, written only when something was removed, which is also the result |
| Storage.ScheduleStorage.GetAllGroupsByNewsType | nonebot_plugin_multi_source_daily/utils/storage.py:145-152 | returns exactly the groups subscribed to the type, in order |
| Storage.ScheduleStorage.MigrateOldData | nonebot_plugin_multi_source_daily/utils/core.py:317-331 | the table becomes its migration, the result says whether any group held `知乎`, and the file is written only then |
| Storage.ScheduleStorage.Reset | nonebot_plugin_multi_source_daily/utils/storage.py:93-97 | corrected `reset`: `data` is a fresh empty dict, which is written |
| Storage.BaseStorageAsWritten.constructor | nonebot_plugin_multi_source_daily/utils/storage.py:17-75 | as written: when the file is missing or corrupt, `data` is the very `default_value` object |
| Storage.BaseStorageAsWritten.Reset | nonebot_plugin_multi_source_daily/utils/storage.py:93-97 | as written: `reset` makes `data` the `default_value` object itself, whatever it now holds, and writes it |
| Storage.ResetKeepsSchedule | nonebot_plugin_multi_source_daily/utils/storage.py:93-97 | starting from a missing file, setting a schedule then calling `reset` leaves that schedule in place and writes it |
| Storage.ResetClears | nonebot_plugin_multi_source_daily/utils/storage.py:93-97 | with the corrected `reset` the same steps leave no schedule at all |
| Priority.Enabled | nonebot_plugin_multi_source_daily/api/manager.py:137-140 | the enabled sources are exactly the listed sources whose `enabled` flag is set, never more than the list |
| Priority.Without | nonebot_plugin_multi_source_daily/api/manager.py:355-357 | the failover candidates are exactly the listed sources whose URL differs from the failed one |
| Priority.Insert | nonebot_plugin_multi_source_daily/api/manager.py:249 | one insertion step of the sort adds exactly the new source to the list |
| Priority.ByPriority | nonebot_plugin_multi_source_daily/api/manager.py:249 | the sort returns a permutation of its input |
| Priority.InsertSorted | nonebot_plugin_multi_source_daily/api/manager.py:249 | inserting into a list ordered by priority keeps it ordered |
| Priority.ByPrioritySorted | nonebot_plugin_multi_source_daily/api/manager.py:249 | the sorted list is ordered by ascending priority |
| Priority.OfPriorityAppend | nonebot_plugin_multi_source_daily/api/manager.py:249 | the sources of one priority in a concatenation are those of each part, in order |
| Priority.InsertStable | nonebot_plugin_multi_source_daily/api/manager.py:249 | insertion places the new source after every earlier source of its priority |
| Priority.ByPriorityStable | nonebot_plugin_multi_source_daily/api/manager.py:249 | the sort keeps the relative order of sources of equal priority, as Python's stable `list.sort` does |
| Priority.ByPrioritySpec | nonebot_plugin_multi_source_daily/api/manager.py:249 | `sources.sort(key=priority)` yields a list ordered by priority that is a permutation of the input and stable |
| Priority.FirstMinIndex | nonebot_plugin_multi_source_daily/api/manager.py:249 | the position of the first source whose priority is least |
| Priority.InsertHead | nonebot_plugin_multi_source_daily/api/manager.py:249 | the head after an insertion is the new source only when its priority is strictly less than the old head's |
| Priority.ByPriorityHead | nonebot_plugin_multi_source_daily/api/manager.py:249 | the first source tried is the earliest one of least priority |
| Sources.NewSource | nonebot_plugin_multi_source_daily/api/sources/base.py:16-37 | a source keeps its name, description and default format; empty formats become `["image", "text"]` and aliases are kept |
| Sources.ValidateFormat | nonebot_plugin_multi_source_daily/api/sources/base.py:39-53 | validation answers the request or the default format, nothing else |
| Sources.ValidateFormatSpec | nonebot_plugin_multi_source_daily/api/sources/base.py:39-53 | the request is kept exactly when it is non-empty and supported; the result is supported when the default is; validating twice changes nothing |
| Sources.FailureMessage | nonebot_plugin_multi_source_daily/api/sources/base.py:95-97 | a failure is answered with one text segment `获取{name}日报失败: {e}` |
| Sources.Generated | nonebot_plugin_multi_source_daily/api/sources/base.py:78-89 | a failed fetch passes its error on, and a format other than image or text raises FormatTypeException |
| Sources.Fetch | nonebot_plugin_multi_source_daily/api/sources/base.py:55-97 | unless refreshing, a fresh non-empty cached message is answered with the cache unchanged; otherwise a generated message is answered and cached under (name, validated format); a failure is answered as an error message, leaving the cache as the lookup left it |
| Sources.BindAliasesFind | nonebot_plugin_multi_source_daily/api/sources/base.py:143-150 | after the alias loop an alias reads the source exactly when it was unused before; every other key reads as before |
| Sources.BindAliasesDistinct | nonebot_plugin_multi_source_daily/api/sources/base.py:143-150 | the alias loop never makes a key appear twice |
| Sources.RegisteredFind | nonebot_plugin_multi_source_daily/api/sources/base.py:135-150 | after `register_news_source` the name reads the source, an alias reads it exactly when no key held it before (the first registration wins), and other keys are untouched |
| Sources.Lookup | nonebot_plugin_multi_source_daily/api/sources/base.py:152-172 | `get_news_source` answers the registry's entry for a registered key and the adapter's answer for any other |
| Sources.RegisterThenLookup | nonebot_plugin_multi_source_daily/api/sources/base.py:135-172 | a registered source is found under its name, and under each alias that was free, whatever the adapter says |
| Sources.SourceRegistry.constructor | nonebot_plugin_multi_source_daily/api/sources/base.py:132 | the registry starts empty |
| Sources.SourceRegistry.Register | nonebot_plugin_multi_source_daily/api/sources/base.py:135-150 | the registry becomes `Registered` of the old one |
| Sources.SourceRegistry.GetNewsSource | nonebot_plugin_multi_source_daily/api/sources/base.py:152-172 | answers `Lookup` on the current registry |
| BaseHandler.FirstIndexed | nonebot_plugin_multi_source_daily/api/handlers/base_handler.py:80-82 | the first position whose item carries the index, or the length when none does |
| BaseHandler.FirstIndexedAt | nonebot_plugin_multi_source_daily/api/handlers/base_handler.py:80-82 | any position meeting that description is the one the search finds |
| BaseHandler.ItemByIndexSpec | nonebot_plugin_multi_source_daily/api/handlers/base_handler.py:67-91 | an item whose index field matches wins, the earliest one; only when none matches is the 1-based position used; the answer is None exactly when nothing matches and the position is out of range |
| BaseHandler.GetNewsItemByIndex | nonebot_plugin_multi_source_daily/api/handlers/base_handler.py:67-91 | the search loop answers `ItemByIndex` of the fetched items, and None when the fetch fails |
| BaseHandler.BindAllFind | nonebot_plugin_multi_source_daily/api/handlers/base_handler.py:121-123 | after the alias loop the bound keys read the handler's name key and every other key reads as before |
| BaseHandler.BindAliasKeys | nonebot_plugin_multi_source_daily/api/handlers/base_handler.py:121-123 | the alias loop binds every normalised alias, in order, to the name key |
| BaseHandler.Lookup | nonebot_plugin_multi_source_daily/api/handlers/base_handler.py:125-145 | a handler is found exactly when the key is a name or an alias |
| BaseHandler.RegisterResolves | nonebot_plugin_multi_source_daily/api/handlers/base_handler.py:112-123 | registration keeps every alias pointing at a registered name, so `_handlers[_aliases[name]]` cannot fail |
| BaseHandler.RegisterLookup | nonebot_plugin_multi_source_daily/api/handlers/base_handler.py:112-145 | after registering h its name key reads h, other names read as before and still win over aliases, its alias keys read h (the last registration wins), and every other key reads as before |
| BaseHandler.InsensitiveLookup | nonebot_plugin_multi_source_daily/api/handlers/base_handler.py:112-145 | any spelling of h's name finds h, and so does any spelling of one of its aliases that is not a registered name |
| BaseHandler.NewsHandlerFactory.constructor | nonebot_plugin_multi_source_daily/api/handlers/base_handler.py:105-109 | the factory starts with no handlers and no aliases |
| BaseHandler.NewsHandlerFactory.RegisterHandler | nonebot_plugin_multi_source_daily/api/handlers/base_handler.py:112-123 | the registry becomes `Register` of the old one under lower-cased keys, and aliases stay resolvable |
| BaseHandler.NewsHandlerFactory.GetHandler | nonebot_plugin_multi_source_daily/api/handlers/base_handler.py:125-145 | answers `Lookup` of the lower-cased name |
| BaseHandler.NewsHandlerFactory.GetAllHandlers | nonebot_plugin_multi_source_daily/api/handlers/base_handler.py:147-154 | returns the handlers dict as a copy |
| Handlers.ImageOf | nonebot_plugin_multi_source_daily/api/handlers.py:100 | the image message is one segment, an image exactly when there are bytes |
| Handlers.ProcessItems | nonebot_plugin_multi_source_daily/api/handlers.py:62-74 | `_process_news_items` truncates when `max_items` is truthy, then fills falsy indexes with the position and empty urls with `#` |
| Handlers.ProcessItemsFills | nonebot_plugin_multi_source_daily/api/handlers.py:62-74 | after processing at most `max_items` items remain, each with a truthy index and a non-empty url |
| Handlers.FilledTwice | nonebot_plugin_multi_source_daily/api/handlers.py:68-72 | filling already filled items changes nothing |
| Handlers.HalvedItems | nonebot_plugin_multi_source_daily/api/handlers.py:90-91 | re-processing the processed data with `max_items // 2` equals processing the original data once with `max_items // 2` |
| Handlers.GenerateStandardText | nonebot_plugin_multi_source_daily/api/handlers.py:107-133 | the text message is the `【name (date)】` header, at most `max_items` numbered items with titles cut to the limit, a link line for each non-empty url, and the two hint lines |
| Handlers.GenerateStandardImage | nonebot_plugin_multi_source_daily/api/handlers.py:76-105 | the generator answers `StandardImage`: process, render, re-render from `max_items // 2` items when over 1 MiB, and fall back to text or re-raise when the render gives nothing |
| Handlers.StandardImageSpec | nonebot_plugin_multi_source_daily/api/handlers.py:76-105 | it fails (a TypeError from `len(None)`) exactly when the first render gives nothing and there is no fallback; an image within 1 MiB is sent as it is; an oversized one is replaced by the render of half the items; the fallback text lists at most eight items, each with a link line |
| Handlers.StandardImage | nonebot_plugin_multi_source_daily/api/handlers.py:76-105 | fails, with the `len(None)` TypeError, exactly when the first render gives nothing and there is no text fallback; a reply built from a render is one segment |
| Handlers.NewsHandlerFactory.constructor | nonebot_plugin_multi_source_daily/api/handlers.py:135-140 | the factory starts with no handlers and no aliases |
| Handlers.NewsHandlerFactory.RegisterHandler | nonebot_plugin_multi_source_daily/api/handlers.py:142-148 | the registry becomes `Register` of the old one with names and aliases taken as given |
| Handlers.NewsHandlerFactory.GetHandler | nonebot_plugin_multi_source_daily/api/handlers.py:150-159 | answers `Lookup` of the name as given: names before aliases |
| Handlers.NewsHandlerFactory.GetAllHandlers | nonebot_plugin_multi_source_daily/api/handlers.py:161-163 | returns the handlers dict as a copy |
| Handlers.ExactLookup | nonebot_plugin_multi_source_daily/api/handlers.py:142-159 | after registering h its exact name finds h, and so does each alias that is not a registered name |
| Handlers.NewsHandlerFor | nonebot_plugin_multi_source_daily/api/handlers.py:306-330 | `get_news_handler` answers None exactly when no built-in case applies and no spelling (as given, lower-cased, capitalised) is known to the factory; a name known as given is answered by the factory |
| Handlers.AnyCaseOfIt | nonebot_plugin_multi_source_daily/api/handlers.py:308-309 | any two-letter spelling of "it" gives the IT之家 handler, whatever the factory holds |
| Handlers.GetWeiboItemByIndex | nonebot_plugin_multi_source_daily/api/handlers.py:234-242 | the 微博 handler answers the item at the 1-based position, None when out of range or when the fetch fails |
| Handlers.WeiboItemByIndex | nonebot_plugin_multi_source_daily/api/handlers.py:234-242 | an item is found exactly when the index is a 1-based position in the list, and it is the item at that position |
| Handlers.WeiboAgreesWhenNumbered | nonebot_plugin_multi_source_daily/api/handlers.py:234-242 | when every item's index is its position, the positional lookup agrees with the base class's search |
| Handlers.WeiboDetail | nonebot_plugin_multi_source_daily/api/handlers.py:244-259 | no url and a blank cookie each give their notice; otherwise the non-empty detail, a notice when it is empty, or the error text; the answer is never empty |
| Mixins.Limited | nonebot_plugin_multi_source_daily/api/sources/mixins.py:33-37 | a truthy `max_items` that is exceeded keeps exactly the first `max_items` items; otherwise all are kept |
| Mixins.Capped | nonebot_plugin_multi_source_daily/api/handlers.py:110-112 | the text generator keeps the first `max_items` items when there are more, with no truthiness test |
| Mixins.Filled | nonebot_plugin_multi_source_daily/api/sources/mixins.py:147-153 | filling keeps the number of items |
| Mixins.ProcessNewsItems | nonebot_plugin_multi_source_daily/api/sources/mixins.py:132-155 | `process_news_items` leaves `Processed` of the input: truncate, then fill index and url item by item |
| Mixins.ProcessedSpec | nonebot_plugin_multi_source_daily/api/sources/mixins.py:132-155 | processing keeps the first items in order and only fills: every index truthy when asked, every url non-empty when the default is, a truthy index or non-empty url kept, and nothing else of an item or of the collection changed |
| Mixins.FilledPrefix | nonebot_plugin_multi_source_daily/api/sources/mixins.py:141-153 | filling commutes with keeping a prefix |
| Mixins.ProcessedIdempotent | nonebot_plugin_multi_source_daily/api/sources/mixins.py:132-155 | processing twice with the same arguments is processing once |
| Mixins.ShortTitle | nonebot_plugin_multi_source_daily/api/sources/mixins.py:86-88 | a title within the limit is kept as it is |
| Mixins.ShortTitleSpec | nonebot_plugin_multi_source_daily/api/sources/mixins.py:86-88 | for a limit of at least 3 the shown title fits the limit, and a longer title becomes exactly its first `limit - 3` characters followed by `...` |
| Mixins.ItemBlockSpec | nonebot_plugin_multi_source_daily/api/sources/mixins.py:84-98 | an item's block is its numbered title line, then the description line only when shown and non-empty, then the link line only when shown and the url is non-empty, then a blank line |
| Mixins.BodyPrefix | nonebot_plugin_multi_source_daily/api/sources/mixins.py:84-98 | the layout of the first k items begins the layout of all of them |
| Mixins.BlockAt | nonebot_plugin_multi_source_daily/api/sources/mixins.py:82-98 | item k is laid out as block number k + 1 right after the header and the earlier blocks, and the message begins with the header |
| Mixins.BodyStep | nonebot_plugin_multi_source_daily/api/sources/mixins.py:84-98 | one more item appends exactly its block |
| Mixins.LayOutItem | nonebot_plugin_multi_source_daily/api/sources/mixins.py:85-98 | the appends for one item build exactly its block |
| Mixins.LayOutText | nonebot_plugin_multi_source_daily/api/sources/mixins.py:82-103 | the appends build exactly the text layout: header, numbered blocks and the optional hint lines |
| Mixins.FormatTextWithLimit | nonebot_plugin_multi_source_daily/api/sources/mixins.py:66-105 | the returned collection holds the limited items and the message is their text layout |
| Mixins.HandleBinaryData | nonebot_plugin_multi_source_daily/api/sources/mixins.py:110-127 | there is an answer exactly when the binary data is present and non-empty, and it is one image of those bytes |
| Mixins.RenderWithFallback | nonebot_plugin_multi_source_daily/api/sources/mixins.py:14-61 | one segment; it is an image exactly when bytes are attached or the render is non-empty, attached bytes win; the renderer sees `data` with only its items cut to a prefix, of at most `max_items` when that is positive and unchanged when it is 0; otherwise the error text `获取{name}日报失败: 生成的图片数据为空` |
| Mixins.FirstFitFound | nonebot_plugin_multi_source_daily/api/sources/mixins.py:235-266 | a fitting render comes from some step whose render is non-empty and within the limit, and no earlier step fits |
| Mixins.FirstFitNone | nonebot_plugin_multi_source_daily/api/sources/mixins.py:235-266 | when nothing fits, no step's render fits |
| Mixins.RenderWithSizeOptimization | nonebot_plugin_multi_source_daily/api/sources/mixins.py:216-282 | the loop answers `SizeOptimized`: attached bytes first, then the first step whose render fits, else an error text |
| Mixins.SizeOptimized | nonebot_plugin_multi_source_daily/api/sources/mixins.py:216-282 | one segment; attached bytes are sent as they are; otherwise an image exactly when some step's render is non-empty and within the limit, and that image is within the limit; else the error text `获取{name}日报失败: 图片渲染失败` |
| Mixins.DetermineApiFormat | nonebot_plugin_multi_source_daily/api/sources/mixins.py:160-178 | the API format is `image` or `json`, and `image` exactly when neither the global default nor the request is `text` |
| Mixins.CallFetchData | nonebot_plugin_multi_source_daily/api/manager.py:256 | `fetch_data` accepts one extra positional argument at most; more raise TypeError, otherwise the call answers as the API does |
| Mixins.FetchWithFormatFallbackAsWritten | nonebot_plugin_multi_source_daily/api/sources/mixins.py:180-211 | as written, `fetch_with_format_fallback` raises TypeError on every call, whatever the formats and whatever the API answers |
| Mixins.FetchWithFormatFallback | nonebot_plugin_multi_source_daily/api/sources/mixins.py:180-211 | corrected: an image request under a text default answers the JSON data when it has items, and otherwise the image request's answer; every other request asks once, in the chosen format |
| Mixins.FormatFallback | nonebot_plugin_multi_source_daily/api/sources/mixins.py:180-211 | with more than one positional argument after the type every call fails with TypeError; otherwise the answer is what the API gave for the JSON or the image format |
| ItHomeHandler.ShownPrefix | nonebot_plugin_multi_source_daily/api/handlers/ithome_handler.py:31-60 | cutting shown data further is showing fewer of the original items |
| ItHomeHandler.GenerateText | nonebot_plugin_multi_source_daily/api/handlers/ithome_handler.py:81-108 | the text message is the standard layout of at most eight items with titles cut at 50 |
| ItHomeHandler.GenerateImage | nonebot_plugin_multi_source_daily/api/handlers/ithome_handler.py:24-79 | the generator answers `ImageMessage`, the 15 → 10 → 5 ladder |
| ItHomeHandler.ImageMessage | nonebot_plugin_multi_source_daily/api/handlers/ithome_handler.py:24-79 | the first attempt whose image is within 1 MiB is sent; a missing image at 15 or 10 items gives the text of those items; after two oversized images the five-item render is sent whatever it is |
| ItHomeHandler.FallbackShowsLinks | nonebot_plugin_multi_source_daily/api/handlers/ithome_handler.py:74-79 | the text fallback lists at most eight items, each with a link line, since filling gave every item a url |
| ZhihuHandler.GenerateText | nonebot_plugin_multi_source_daily/api/handlers/zhihu_handler.py:47-75 | the text message is the standard layout under the 知乎日报 title |
| ZhihuHandler.GenerateImage | nonebot_plugin_multi_source_daily/api/handlers/zhihu_handler.py:24-45 | the generator answers `ImageMessage`: fifteen filled items rendered once |
| ZhihuHandler.ImageMessage | nonebot_plugin_multi_source_daily/api/handlers/zhihu_handler.py:24-45 | the image message is always one segment: the render of fifteen filled items when there is one, else an image with no file |
| ZhihuHandler.RenderedItems | nonebot_plugin_multi_source_daily/api/handlers/zhihu_handler.py:26-33 | what is rendered is at most fifteen of the original items, in order, each with an index and a url |
| ZhihuHandler.ImportTimeRegistry | nonebot_plugin_multi_source_daily/api/handlers/zhihu_handler.py:76 | the registrations the handler package makes on import leave every alias resolvable |
| ZhihuHandler.ImportTimeLookup | nonebot_plugin_multi_source_daily/api/handlers/__init__.py:6-24 | after import, every spelling that lowers to a name or alias of IT之家 or 知乎日报 finds that handler, and neither takes the other's keys |
| ZhihuHandler.ItHomeKeyHead | nonebot_plugin_multi_source_daily/api/handlers/ithome_handler.py:13-18 | every key of the IT之家 handler starts with `i` |
| ZhihuHandler.ZhihuKeyHead | nonebot_plugin_multi_source_daily/api/handlers/zhihu_handler.py:13-18 | no key of the 知乎 handler starts with `i` |
| PyText.NatToStr | nonebot_plugin_multi_source_daily/utils/scheduler.py:58 | `str(n)` of a natural number is a non-empty run of digits without a leading zero |
| PyText.IntToStr | nonebot_plugin_multi_source_daily/utils/scheduler.py:58 | `str(i)` is non-empty and starts with `-` exactly when i is negative |
| PyText.Pad2 | nonebot_plugin_multi_source_daily/utils/helpers.py:129-131 | `f"{n:02d}"` has at least two characters |
| PyText.StripLeft | nonebot_plugin_multi_source_daily/api/handlers.py:248 | `str.lstrip` drops leading whitespace only, whitespace being Python's `str.isspace` set (ASCII controls, U+001C–U+001F, U+0085, U+00A0, U+2000–U+200A, U+3000 and the rest) |
| PyText.StripRight | nonebot_plugin_multi_source_daily/api/handlers.py:248 | `str.rstrip` keeps a prefix and drops trailing whitespace only, over the same `str.isspace` set |
| PyText.LeadingSpaceIgnored | nonebot_plugin_multi_source_daily/utils/helpers.py:107-110 | any run of Python whitespace before the text changes neither `lstrip` nor what `int()` reads |
| PyText.IdeographicSpaceStripped | nonebot_plugin_multi_source_daily/utils/helpers.py:107-110 | `int("\u300008") == 8`: the ideographic space is whitespace to `int()` |
| PyText.Split | nonebot_plugin_multi_source_daily/utils/scheduler.py:148 | `str.split(sep)` always yields at least one part |
| PyText.Lower | nonebot_plugin_multi_source_daily/api/handlers/base_handler.py:118 | `str.lower` keeps the length |
| PyText.Upper | nonebot_plugin_multi_source_daily/api/handlers.py:308 | `str.upper` keeps the length |
| PyText.PyIntOfDigits | nonebot_plugin_multi_source_daily/utils/helpers.py:107-110 | `int()` of a non-empty run of digits is its decimal value |
| Parsers.KeptSound | nonebot_plugin_multi_source_daily/api/parsers.py:54-68 | every kept position is in range and holds an entry the filter accepts |
| Parsers.KeptIncreasing | nonebot_plugin_multi_source_daily/api/parsers.py:54-68 | kept positions are strictly increasing, so items come out in source order |
| Parsers.KeptComplete | nonebot_plugin_multi_source_daily/api/parsers.py:54-68 | every accepted entry's position is kept |
| Parsers.KeptBound | nonebot_plugin_multi_source_daily/api/parsers.py:54-68 | no more positions are kept than there are entries |
| Helpers.UniqueNamesDistinct | nonebot_plugin_multi_source_daily/utils/helpers.py:205-208 | the hint lists no name twice |
| Helpers.UniqueNamesCover | nonebot_plugin_multi_source_daily/utils/helpers.py:205-208 | every registered source's name is listed |
| Helpers.UniqueNamesFirst | nonebot_plugin_multi_source_daily/utils/helpers.py:205-208 | each listed source is the first registered under its name |

## Left out

- HTTP transport and `asyncio.sleep`. Each attempt's outcome is an input, and the sleeps are a recorded list of delays.
- Floating point. Timestamps are whole seconds. The ×1.5 backoff delay is recorded symbolically as `Backoff(k)`, meaning `1.5^k` times the base delay, with no rounding. Image sizes are byte counts.
- Files. Writing the status file, the schedule files and the backup copies is not modelled. A write is recorded in `saves` or `saved` and taken to succeed. Reading a file is reduced to "missing", "corrupt", "unreadable" or what it decoded to, in the shapes the model's types can hold. The lines below name the shapes left out.
- `load_status` reads the file; only the merge over the decoded value is modelled. Merging sets sources' `enabled` flags and leaves the `api_status` mirror as it was, which is what the code does.
- `fetch_data`'s `extra_params` are not modelled. They only add query parameters to a request, and the request is an oracle here.
- A parser lookup failing inside `fetch_data` is folded into the oracle's answer. So is any exception `fetch_with_retry` raises, since both reach the same handlers.
- The scheduler library. Jobs are a set of ids; cron triggers and next-run times are not modelled. `send_daily_news` and `init_jobs` are left out: they are bot I/O.
- Rendering and screenshots (`render_news_to_image`, Playwright, `capture_news_screenshot`, `supports_detail`). The renderer is an input function. The title and template arguments it receives are not modelled.
- Logging, which changes no state.
- The RSS parser's feed library. The parser receives the feed as a value, and only the item loop is modelled.
- JsonValue.TextOf: the parsers keep a title, URL or year exactly as decoded, while the model turns every scalar into its `str()` text and gives "" for a list or object. A numeric or null title therefore becomes text here. In the original it stays an int or None, and a later `len` or string operation on it raises TypeError. That error path is not modelled.
- JsonValue.IntOf: a value used as an integer (a VVHan `index`) reads as 0 unless it is a JSON integer or boolean. The original keeps the raw value, such as the string "3".
- JSON floats are not modelled. A `success` of `1.0`, which Python's `== 1` accepts, has no counterpart in the model's `Json` values.
- Parsers.VVHanIndexCopied: a non-integer `index` such as "3" reads as 0 and is then refilled from the item's position, where the original keeps "3" and leaves it alone.
- Manager.ApiManager.LoadStatus: only well-shaped decoded files are modelled, meaning a dict of lists of dicts whose `enabled` is a boolean or absent. On a wrongly shaped file the original raises partway through the merge and returns false with the earlier types already merged. It also stores a non-boolean `enabled` as it is. Neither case is modelled.
- Storage.ScheduleStorage.constructor: only a decoded `schedules.json` that is a dict of dict groups is modelled (`Loaded.Decoded` holds a `Table`). `_load_data` keeps whatever JSON it decoded. With a top-level list, the migrating constructor of `utils/core.py` raises AttributeError at `self.data.items()`, and `set_group_schedule` in `utils/storage.py` raises TypeError. With a string group value, `set_group_schedule` raises TypeError and `get_all_groups_by_news_type` does a substring test. None of these paths is modelled.
- Scheduler.ScheduleManager.GetJobs: the listing is modelled with the corrected length guard (see Findings). The guard as written is `Scheduler.DecodeJobAsWritten`, and the input it fails on is exhibited there.
- PyText.Lower, PyText.Upper, PyText.Capitalize: ASCII case mapping only. Python maps every cased script, and the plugin's names are Chinese or ASCII.
- The digit test used by `int()` accepts ASCII digits only. Python also accepts other Unicode decimal digits.
- `ApiSource` records are values. A method that changes a source's field replaces that list element. Aliasing of the same record object from several lists does not arise in the plugin and is not modelled.
- News items and collections are values. The handlers' in-place truncation and filling are modelled as functions returning the new collection, and the mixins return the collection they changed. The exception is Mixins.RenderWithFallback, which returns only the message: the cut that `render_with_fallback` makes to `news_data.items` when `max_items` is given is not returned. No caller in the plugin passes `max_items` there.
- Attribute errors on duck-typed inputs, such as a `news_data` without `binary_data`, cannot arise in the typed model.
- The per-source subclasses, commands, adapters, configuration loading, `FileCache` and `utils/weibo.py` are outside the modelled core.
- Both `NewsHandlerFactory` classes keep their registry as the fields of one factory object. The original keeps class-level dicts shared by the whole process through classmethods, so two factory objects here would not share registrations the way two calls do there.
- Handlers.WeiboDetail: the detail scraper `get_weibo_detail` is an input function, and its error text is the exception's message.
- ManagerState.ApiStatus: when "" is a registered type and no type is asked for, the code recurses until Python raises RecursionError. The model gives that error as the outcome and does not model the recursion itself.

## Findings

| source | as written | input that shows it | evidently intended | confidence | as-written member | corrected member |
|---|---|---|---|---|---|---|
| nonebot_plugin_multi_source_daily/utils/storage.py:93-97 | `reset` assigns `self.data = self.default_value`. When the file was missing at start-up, `data` already is that same dict object, so every later `set_group_schedule` has been writing into the default, and `reset` brings the schedules back instead of clearing them (the copy in `utils/core.py:303-307` is the same) | start with no schedules file, set group 1's `知乎日报` schedule to 08:00, call `reset`: the schedule is still there and is written back | `reset` leaves an empty table, e.g. by assigning a copy of the default | high, not executed | Storage.ResetKeepsSchedule | Storage.ResetClears |
| nonebot_plugin_multi_source_daily/utils/scheduler.py:144-157 | `get_jobs` skips ids with fewer than 3 `_`-separated parts but then reads `parts[3]` | a job with id `daily_news_5` raises IndexError, and the whole listing fails | skip ids with fewer than 4 parts | high, not executed | Scheduler.ThreePartIdRaises | Scheduler.JobIdRoundTrip |
| nonebot_plugin_multi_source_daily/api/sources/mixins.py:180-211 | `fetch_with_format_fallback` calls `api_manager.fetch_data(self.name, params, api_index)`, but `fetch_data` takes only the news type and one optional argument (api/manager.py:256) | any call, e.g. requested `image` under a global `text` default: both calls raise TypeError; the first is caught, the second escapes | call `fetch_data(self.name, params)` | high, not executed | Mixins.FetchWithFormatFallbackAsWritten | Mixins.FetchWithFormatFallback |
