/**
 * api/manager.py's `ApiManager`: the source registry, its health counters
 * and the fetch with failover, as a class whose methods are proved to
 * change its state as the functions of module ManagerState say.
 *
 * The two request outcomes of one attempt (the GET through
 * `fetch_with_retry` and the parser) are the oracle `call`, the clock is the
 * parameter `now`, and the configuration values are constants of the
 * object.
 */
module Manager {
  import opened Wrappers
  import opened Models
  import opened Exceptions
  import opened Dicts
  import opened Priority
  import opened ManagerState

  /** The `for source in ...: if source.url == url` loop: where the URL first occurs. */
  method FindIndex(s: seq<ApiSource>, url: string) returns (i: nat)
    ensures i == IndexOf(s, url)
  {
    i := 0;
    while i < |s| && s[i].url != url
      invariant i <= |s|
      invariant forall k :: 0 <= k < i ==> s[k].url != url
    {
      i := i + 1;
    }
    IndexOfAt(s, url, i);
  }

  /** The branches of `update_api_source_status` on one source: its new fields, and whether it was switched off. */
  method RecordOutcome(x: ApiSource, success: bool, now: int, maxRetries: int) returns (r: ApiSource, statusChanged: bool)
    ensures r == Recorded(x, success, now, maxRetries)
    ensures statusChanged == Disables(x, success, maxRetries)
  {
    r := x;
    statusChanged := false;
    if success {
      r := r.(lastSuccess := now, failureCount := 0);
    } else {
      r := r.(failureCount := r.failureCount + 1);
      if r.failureCount >= maxRetries * 2 {
        if r.enabled {
          r := r.(enabled := false);
          statusChanged := true;
        }
      }
    }
  }

  class ApiManager {
    var sources: Dict<string, seq<ApiSource>>
    var status: Dict<string, Dict<string, Status>>
    /** How many times `save_status` ran. */
    var saves: nat
    /** `config.daily_news_max_retries`. */
    const maxRetries: int
    /** `config.daily_news_auto_failover`. */
    const autoFailover: bool

    function State(): MState
      reads this
    {
      MState(sources, status, saves)
    }

    /** Every news type's sources have distinct URLs. */
    ghost predicate Valid()
      reads this
    {
      WellFormed(State())
    }

    constructor(maxRetries: int, autoFailover: bool)
      ensures Valid() && State() == MState([], [], 0)
      ensures this.maxRetries == maxRetries && this.autoFailover == autoFailover
    {
      sources := [];
      status := [];
      saves := 0;
      this.maxRetries := maxRetries;
      this.autoFailover := autoFailover;
    }

    /** `save_status`: the file written is not modelled, only that it was. */
    method SaveStatus()
      modifies this
      ensures State() == old(State()).(saves := old(saves) + 1)
    {
      saves := saves + 1;
    }

    /** `if news_type in self.api_status and url in self.api_status[news_type]`: overwrite that entry. */
    method WriteStatus(t: string, url: string, e: Status)
      modifies this
      ensures sources == old(sources) && saves == old(saves)
      ensures status == StatusWith(old(status), t, url, e)
    {
      var m := Find(status, t);
      if m.Some? && url in Keys(m.value) {
        status := Put(status, t, Put(m.value, url, e));
      }
    }

    // ----- registry -----

    method RegisterApiSource(t: string, src: ApiSource)
      requires Valid()
      modifies this
      ensures Valid() && State() == Registered(old(State()), t, src)
    {
      ghost var st0 := State();
      RegisteredWellFormed(st0, t, src);
      var s := Find(sources, t).GetOr([]);
      if t !in Keys(sources) {
        sources := Put(sources, t, []);
      }
      ghost var st1 := State();
      assert st1 == if t in Keys(st0.sources) then st0 else st0.(sources := Put(st0.sources, t, []));
      var i := FindIndex(s, src.url);
      if i < |s| {
        return;
      }
      sources := Put(sources, t, s + [src]);
      var inner := Find(status, t).GetOr([]);
      status := Put(status, t, Put(inner, src.url, StatusOf(src)));
      assert State() == st1.(sources := Put(st1.sources, t, s + [src]), status := Put(st1.status, t, Put(inner, src.url, StatusOf(src))));
    }

    method RegisterApiSources(t: string, srcs: seq<ApiSource>)
      requires Valid()
      modifies this
      ensures Valid() && State() == RegisteredAll(old(State()), t, srcs)
    {
      ghost var st0 := State();
      for i := 0 to |srcs|
        invariant Valid() && State() == RegisteredAll(st0, t, srcs[..i])
      {
        assert srcs[..i + 1][..i] == srcs[..i];
        RegisterApiSource(t, srcs[i]);
      }
      assert srcs[..|srcs|] == srcs;
    }

    /** `get_enabled_api_sources`. */
    method GetEnabledApiSources(t: string) returns (r: seq<ApiSource>)
      ensures r == Enabled(SourcesOf(State(), t))
    {
      var s := Find(sources, t).GetOr([]);
      r := [];
      for i := 0 to |s|
        invariant r == Enabled(s[..i])
      {
        assert s[..i + 1][..i] == s[..i];
        if s[i].enabled {
          r := r + [s[i]];
        }
      }
      assert s[..|s|] == s;
    }

    /** `get_api_source`. */
    method GetApiSource(t: string, url: string) returns (r: Option<ApiSource>)
      ensures r == SourceAt(State(), t, url)
    {
      var s := Find(sources, t).GetOr([]);
      var i := FindIndex(s, url);
      r := if i < |s| then Some(s[i]) else None;
    }

    // ----- enable, disable, reset -----

    /** The body shared by `enable_api_source` and `disable_api_source`. */
    method SetEnabledFlag(t: string, url: string, b: bool) returns (found: bool)
      requires Valid()
      modifies this
      ensures Valid() && (found, State()) == SetEnabled(old(State()), t, url, b)
    {
      ghost var st0 := State();
      var s := Find(sources, t).GetOr([]);
      var i := FindIndex(s, url);
      if i == |s| {
        return false;
      }
      SetEnabledAt(st0, t, url, b);
      SetEnabledWellFormed(st0, t, url, b);
      sources := Put(sources, t, s[i := s[i].(enabled := b)]);
      WriteStatusEnabled(t, url, b);
      SaveStatus();
      found := true;
    }

    /** The status entry's `enabled` flag, set when the entry exists. */
    method WriteStatusEnabled(t: string, url: string, b: bool)
      modifies this
      ensures sources == old(sources) && saves == old(saves)
      ensures status == StatusEnabled(old(status), t, url, b)
    {
      var m := Find(status, t);
      if m.Some? {
        var e := Find(m.value, url);
        if e.Some? {
          status := Put(status, t, Put(m.value, url, e.value.(enabled := b)));
        }
      }
    }

    method EnableApiSource(t: string, url: string) returns (found: bool)
      requires Valid()
      modifies this
      ensures Valid() && (found, State()) == SetEnabled(old(State()), t, url, true)
    {
      found := SetEnabledFlag(t, url, true);
    }

    method DisableApiSource(t: string, url: string) returns (found: bool)
      requires Valid()
      modifies this
      ensures Valid() && (found, State()) == SetEnabled(old(State()), t, url, false)
    {
      found := SetEnabledFlag(t, url, false);
    }

    method ResetApiSource(t: string, url: string) returns (found: bool)
      requires Valid()
      modifies this
      ensures Valid() && (found, State()) == ResetOne(old(State()), t, url)
    {
      ghost var st0 := State();
      var s := Find(sources, t).GetOr([]);
      var i := FindIndex(s, url);
      if i == |s| {
        return false;
      }
      ResetOneAt(st0, t, url);
      ResetOneWellFormed(st0, t, url);
      sources := Put(sources, t, s[i := s[i].(enabled := true, failureCount := 0, lastSuccess := 0)]);
      WriteStatus(t, url, Status(true, 0, 0));
      found := true;
    }

    /** The loop of `reset_api_sources` over the listed URLs, counting the ones found. */
    method ResetUrlList(t: string, urls: seq<string>) returns (count: nat)
      requires Valid()
      modifies this
      ensures Valid() && (count, State()) == ResetUrls(old(State()), t, urls)
    {
      ghost var st0 := State();
      count := 0;
      for i := 0 to |urls|
        invariant Valid()
        invariant count == ResetUrls(st0, t, urls[..i]).0 && State() == ResetUrls(st0, t, urls[..i]).1
      {
        ResetUrlsLast(st0, t, urls[..i + 1]);
        assert urls[..i + 1][..i] == urls[..i];
        var found := ResetApiSource(t, urls[i]);
        if found {
          count := count + 1;
        }
      }
      assert urls[..|urls|] == urls;
    }

    method ResetApiSources(t: string) returns (count: nat)
      requires Valid()
      modifies this
      ensures Valid() && (count, State()) == ResetType(old(State()), t)
    {
      ghost var st0 := State();
      var urls := Urls(Find(sources, t).GetOr([]));
      count := ResetUrlList(t, urls);
      ghost var st1 := State();
      if count > 0 {
        SaveStatus();
        WellFormedBySources(st1, State());
      }
      ResetTypeAfter(st0, t, count, st1);
    }

    method ResetAllApiSources() returns (count: nat)
      requires Valid()
      modifies this
      ensures Valid() && (count, State()) == ResetAll(old(State()))
    {
      ghost var st0 := State();
      var types := Keys(sources);
      count := 0;
      for i := 0 to |types|
        invariant Valid()
        invariant count == ResetTypes(st0, types[..i]).0 && State() == ResetTypes(st0, types[..i]).1
      {
        ResetTypesLast(st0, types[..i + 1]);
        assert types[..i + 1][..i] == types[..i];
        var c := ResetApiSources(types[i]);
        count := count + c;
      }
      assert types[..|types|] == types;
    }

    // ----- health -----

    method UpdateApiSourceStatus(t: string, url: string, success: bool, now: int)
      requires Valid()
      modifies this
      ensures Valid() && State() == Updated(old(State()), t, url, success, now, maxRetries)
    {
      ghost var st0 := State();
      var s := Find(sources, t).GetOr([]);
      var i := FindIndex(s, url);
      if i == |s| {
        return;
      }
      var src, statusChanged := RecordOutcome(s[i], success, now, maxRetries);
      UpdatedAt(st0, t, url, success, now, maxRetries);
      UpdatedWellFormed(st0, t, url, success, now, maxRetries);
      sources := Put(sources, t, s[i := src]);
      WriteStatus(t, url, StatusOf(src));
      if statusChanged {
        SaveStatus();
      }
    }

    /** `get_best_api_source`; the registry itself is not reordered. */
    method GetBestApiSource(t: string) returns (r: Option<ApiSource>)
      ensures r == Best(SourcesOf(State(), t))
    {
      var e := GetEnabledApiSources(t);
      if |e| == 0 {
        return None;
      }
      var sorted := ByPriority(e);
      if sorted[0].lastSuccess > 0 {
        return Some(sorted[0]);
      }
      r := Some(sorted[0]);
    }

    // ----- fetching -----

    /**
     * The loop of `_try_failover_sources` over the sorted candidates: the k-th
     * request of the fetch goes to `call(source, k)`; each failure is
     * recorded, and the first source that parses is recorded and answered.
     */
    method TryCandidates(t: string, cands: seq<ApiSource>, k: nat, call: (ApiSource, nat) -> Outcome, now: int)
      returns (r: Result<NewsData, Exc>, next: nat)
      requires Valid()
      modifies this
      ensures Valid() && State() == ChainState(old(State()), t, cands, k, call, now, maxRetries)
      ensures (r, next) == ChainResult(t, cands, k, call)
    {
      ghost var st0 := State();
      ghost var want := ChainResult(t, cands, k, call);
      next := k;
      for j := 0 to |cands|
        invariant next == k + j && Valid()
        invariant ChainState(State(), t, cands[j..], next, call, now, maxRetries) == ChainState(st0, t, cands, k, call, now, maxRetries)
        invariant ChainResult(t, cands[j..], next, call) == want
      {
        ghost var before := State();
        var outcome := call(cands[j], next);
        if outcome.Parsed? {
          ChainParsed(before, t, cands, j, next, call, now, maxRetries);
          UpdateApiSourceStatus(t, cands[j].url, true, now);
          return Success(outcome.data), next + 1;
        }
        ChainFailed(before, t, cands, j, next, call, now, maxRetries);
        next := next + 1;
        UpdateApiSourceStatus(t, cands[j].url, false, now);
      }
      assert cands[|cands|..] == [];
      r := Failure(NoSource(t));
    }

    /**
     * `_try_failover_sources`: the enabled sources other than the failed
     * one, by priority; none raises at once. Answers the result and the next
     * request number.
     */
    method TryFailoverSources(t: string, failedUrl: string, k: nat, call: (ApiSource, nat) -> Outcome, now: int)
      returns (r: Result<NewsData, Exc>, next: nat)
      requires Valid()
      modifies this
      ensures Valid() && (State(), r, next) == Failover(old(State()), t, failedUrl, k, call, now, maxRetries)
    {
      ghost var st0 := State();
      var enabled := GetEnabledApiSources(t);
      var others := Without(enabled, failedUrl);
      if |others| == 0 {
        return Failure(NoSource(t)), k;
      }
      var cands := ByPriority(others);
      assert cands == Candidates(st0, t, failedUrl);
      r, next := TryCandidates(t, cands, k, call, now);
    }

    /**
     * `fetch_data` without `extra_params`. The parse failure of the primary
     * raises an `APIException` inside the outer `try`, so it is recorded a
     * second time and, with failover on, failover runs again.
     */
    method FetchData(t: string, call: (ApiSource, nat) -> Outcome, now: int) returns (r: Result<NewsData, Exc>)
      requires Valid()
      modifies this
      ensures Valid() && (State(), r) == ManagerState.FetchData(old(State()), t, autoFailover, call, now, maxRetries)
    {
      var best := GetBestApiSource(t);
      if best.None? {
        return Failure(NoSource(t));
      }
      var src := best.value;
      var outcome := call(src, 0);
      match outcome {
        case Parsed(d) =>
          UpdateApiSourceStatus(t, src.url, true, now);
          r := Success(d);
        case ParseError(e) =>
          r := OnParseError(t, src, e, call, now);
        case RequestError(e) =>
          r := OnRequestError(t, src, e, call, now);
      }
    }

    /** The `except ApiParseException` branch of `fetch_data`, then the outer handler. */
    method OnParseError(t: string, src: ApiSource, e: Exc, call: (ApiSource, nat) -> Outcome, now: int)
      returns (r: Result<NewsData, Exc>)
      requires Valid()
      modifies this
      ensures Valid() && (State(), r) == AfterParseError(old(State()), t, src, e, autoFailover, call, now, maxRetries)
    {
      UpdateApiSourceStatus(t, src.url, false, now);
      var raised: Result<NewsData, Exc>;
      var next := 1;
      if autoFailover {
        raised, next := TryFailoverSources(t, src.url, 1, call, now);
        if raised.Success? {
          return raised;
        }
      } else {
        raised := Failure(ApiParse("API响应解析失败: " + ErrorMessage(e), src.url, src.parser));
      }
      // the outer handler catches what was raised
      UpdateApiSourceStatus(t, src.url, false, now);
      if autoFailover {
        r, next := TryFailoverSources(t, src.url, next, call, now);
      } else {
        r := raised;
      }
    }

    /** The `except ApiRequestException` branch of `fetch_data`. */
    method OnRequestError(t: string, src: ApiSource, e: Exc, call: (ApiSource, nat) -> Outcome, now: int)
      returns (r: Result<NewsData, Exc>)
      requires Valid()
      modifies this
      ensures Valid() && (State(), r) == AfterRequestError(old(State()), t, src, e, autoFailover, call, now, maxRetries)
    {
      UpdateApiSourceStatus(t, src.url, false, now);
      if autoFailover {
        var next;
        r, next := TryFailoverSources(t, src.url, 1, call, now);
      } else {
        r := Failure(e);
      }
    }

    // ----- status file and report -----

    /**
     * The merge of `load_status`: `saved` is the decoded file, or None when
     * there is no file or it cannot be read, which answers false.
     */
    method LoadStatus(saved: Option<Dict<string, seq<SavedSource>>>) returns (ok: bool)
      requires Valid()
      modifies this
      ensures Valid() && ok == saved.Some?
      ensures State() == if saved.Some? then Merged(old(State()), saved.value) else old(State())
    {
      if saved.None? {
        return false;
      }
      ghost var st0 := State();
      var data := saved.value;
      for i := 0 to |data|
        invariant Valid() && State() == Merged(st0, data[..i])
      {
        assert data[..i + 1][..i] == data[..i];
        var t := data[i].0;
        var entries := data[i].1;
        if t !in Keys(sources) {
          continue;
        }
        ghost var sti := State();
        for j := 0 to |entries|
          invariant Valid() && State() == MergeEntries(sti, t, entries[..j])
        {
          assert entries[..j + 1][..j] == entries[..j];
          var e := entries[j];
          if e.url == "" {
            continue;
          }
          var s := Find(sources, t).GetOr([]);
          var k := FindIndex(s, e.url);
          if k == |s| || e.enabled.None? {
            continue;
          }
          ReplaceWellFormed(State(), t, e.url, EnableFn(e.enabled.value));
          sources := Put(sources, t, s[k := s[k].(enabled := e.enabled.value)]);
        }
        assert entries[..|entries|] == entries;
      }
      assert data[..|data|] == data;
      ok := true;
    }

    /** `get_api_status`; "" as the type asks for every type. */
    method GetApiStatus(t: string) returns (r: Result<StatusReport, Exc>)
      ensures r == ApiStatus(State(), t)
    {
      if t != "" {
        return Success(Single(TypeReport(t, Find(sources, t).GetOr([]))));
      }
      var types := Keys(sources);
      var reports: Dict<string, TypeReport> := [];
      for i := 0 to |types|
        invariant reports == AllReports(State(), types[..i]) && "" !in types[..i]
      {
        if types[i] == "" {
          // get_api_status("") calls itself again
          return Failure(Other("maximum recursion depth exceeded"));
        }
        reports := reports + [(types[i], TypeReport(types[i], Find(sources, types[i]).GetOr([])))];
      }
      assert types[..|types|] == types;
      r := Success(All(reports));
    }
  }
}
