/**
 * The state of api/manager.py's `ApiManager` and what each of its operations
 * does to it, as functions; the class in module Manager is proved against
 * these.
 *
 * `api_sources` maps a news type to its ordered `ApiSource` list,
 * `api_status` mirrors three counters per (type, URL), and `saves` counts
 * the calls of `save_status` (writing the file is not modelled). An
 * `ApiSource` is a value here, so changing a source's field replaces the
 * list element in place.
 */
module ManagerState {
  import opened Wrappers
  import opened Models
  import opened Exceptions
  import opened Dicts
  import opened Priority

  /** One `api_status` entry. */
  datatype Status = Status(enabled: bool, lastSuccess: int, failureCount: int)

  function StatusOf(s: ApiSource): Status {
    Status(s.enabled, s.lastSuccess, s.failureCount)
  }

  datatype MState = MState(
    sources: Dict<string, seq<ApiSource>>,
    status: Dict<string, Dict<string, Status>>,
    saves: nat)

  /** `get_api_sources`: the type's list, or empty. */
  function SourcesOf(st: MState, t: string): seq<ApiSource> {
    Find(st.sources, t).GetOr([])
  }

  /** No URL occurs twice in a list. */
  predicate UniqueUrls(s: seq<ApiSource>) {
    forall i, j :: 0 <= i < j < |s| ==> s[i].url != s[j].url
  }

  function Urls(s: seq<ApiSource>): (r: seq<string>)
    ensures |r| == |s| && forall i :: 0 <= i < |s| ==> r[i] == s[i].url
  {
    seq(|s|, i requires 0 <= i < |s| => s[i].url)
  }

  // ----- finding a source by URL -----

  /** The position of the first source with the URL, or the length when there is none. */
  function IndexOf(s: seq<ApiSource>, url: string): (i: nat)
    ensures i <= |s|
    ensures i < |s| ==> s[i].url == url
    ensures forall k :: 0 <= k < i ==> s[k].url != url
  {
    if |s| == 0 then 0
    else if s[0].url == url then 0
    else 1 + IndexOf(s[1..], url)
  }

  /** IndexOf is the position its contract describes, and no other. */
  lemma {:induction false} IndexOfAt(s: seq<ApiSource>, url: string, i: nat)
    requires i <= |s|
    requires i < |s| ==> s[i].url == url
    requires forall k :: 0 <= k < i ==> s[k].url != url
    ensures IndexOf(s, url) == i
  {
    if i > 0 {
      assert s[0].url != url;
      assert forall k :: 0 <= k < i - 1 ==> s[1..][k] == s[k + 1];
      IndexOfAt(s[1..], url, i - 1);
    }
  }

  /** The loop of `get_api_source` over one list: the first source with the URL. */
  function SourceIn(s: seq<ApiSource>, url: string): (r: Option<ApiSource>)
    ensures r.Some? <==> exists k :: 0 <= k < |s| && s[k].url == url
    ensures r.Some? ==> r.value.url == url && r.value in s
  {
    var i := IndexOf(s, url);
    if i < |s| then Some(s[i]) else None
  }

  /** `get_api_source`. */
  function SourceAt(st: MState, t: string, url: string): Option<ApiSource> {
    SourceIn(SourcesOf(st, t), url)
  }

  /** Lists with the same URLs find every URL at the same place. */
  lemma SameUrlsSameIndex(a: seq<ApiSource>, b: seq<ApiSource>, url: string)
    requires Urls(a) == Urls(b)
    ensures IndexOf(a, url) == IndexOf(b, url)
  {
    assert |a| == |Urls(a)| == |b|;
    assert forall k :: 0 <= k < |a| ==> a[k].url == Urls(a)[k] == b[k].url;
    IndexOfAt(b, url, IndexOf(a, url));
  }

  // ----- changing the source with a URL -----

  /** The change keeps the URL. */
  ghost predicate KeepsUrl(f: ApiSource -> ApiSource) {
    forall x :: f(x).url == x.url
  }

  /** Apply f to the first source with the URL, if any. */
  function Replaced(s: seq<ApiSource>, url: string, f: ApiSource -> ApiSource): seq<ApiSource> {
    var i := IndexOf(s, url);
    if i < |s| then s[i := f(s[i])] else s
  }

  /**
   * Only the source with the URL changes; it is then found with its new
   * fields, every other URL finds what it found before, and the URLs stay.
   */
  lemma ReplacedSpec(s: seq<ApiSource>, url: string, f: ApiSource -> ApiSource, other: string)
    requires KeepsUrl(f)
    ensures var r := Replaced(s, url, f);
      && |r| == |s| && Urls(r) == Urls(s)
      && (forall k :: 0 <= k < |s| ==> r[k] == if k == IndexOf(s, url) then f(s[k]) else s[k])
      && (SourceIn(s, url).Some? ==> SourceIn(r, url) == Some(f(SourceIn(s, url).value)))
      && (SourceIn(s, url).None? ==> r == s)
      && (other != url ==> SourceIn(r, other) == SourceIn(s, other))
  {
    var r := Replaced(s, url, f);
    assert Urls(r) == Urls(s);
    SameUrlsSameIndex(r, s, url);
    SameUrlsSameIndex(r, s, other);
  }

  /** The state with the type's list replaced by `Replaced`. */
  function Replace(st: MState, t: string, url: string, f: ApiSource -> ApiSource): MState {
    st.(sources := Put(st.sources, t, Replaced(SourcesOf(st, t), url, f)))
  }

  lemma ReplaceSources(st: MState, t: string, url: string, f: ApiSource -> ApiSource, t': string)
    ensures SourcesOf(Replace(st, t, url, f), t') ==
      if t' == t then Replaced(SourcesOf(st, t), url, f) else SourcesOf(st, t')
  {
    PutFind(st.sources, t, Replaced(SourcesOf(st, t), url, f), t');
  }

  /** Overwrite the status entry of (t, url) when both keys are already there. */
  function StatusWith(status: Dict<string, Dict<string, Status>>, t: string, url: string, e: Status)
    : Dict<string, Dict<string, Status>>
  {
    match Find(status, t)
    case Some(m) => if url in Keys(m) then Put(status, t, Put(m, url, e)) else status
    case None => status
  }

  /** Set the `enabled` field of the status entry of (t, url), if there is one. */
  function StatusEnabled(status: Dict<string, Dict<string, Status>>, t: string, url: string, b: bool)
    : Dict<string, Dict<string, Status>>
  {
    match Find(status, t)
    case Some(m) =>
      (match Find(m, url)
       case Some(e) => Put(status, t, Put(m, url, e.(enabled := b)))
       case None => status)
    case None => status
  }

  // ----- the single-source operations at a known position -----

  /** Where the URL is found, replacing it is an update of that position. */
  lemma ReplaceAt(st: MState, t: string, url: string, f: ApiSource -> ApiSource)
    requires IndexOf(SourcesOf(st, t), url) < |SourcesOf(st, t)|
    ensures var s := SourcesOf(st, t);
      var i := IndexOf(s, url);
      && SourceAt(st, t, url) == Some(s[i])
      && Replace(st, t, url, f) == st.(sources := Put(st.sources, t, s[i := f(s[i])]))
  {
  }

  lemma SetEnabledAt(st: MState, t: string, url: string, b: bool)
    requires IndexOf(SourcesOf(st, t), url) < |SourcesOf(st, t)|
    ensures var s := SourcesOf(st, t);
      var i := IndexOf(s, url);
      SetEnabled(st, t, url, b) ==
        (true, MState(Put(st.sources, t, s[i := s[i].(enabled := b)]), StatusEnabled(st.status, t, url, b), st.saves + 1))
  {
    ReplaceAt(st, t, url, EnableFn(b));
  }

  lemma ResetOneAt(st: MState, t: string, url: string)
    requires IndexOf(SourcesOf(st, t), url) < |SourcesOf(st, t)|
    ensures var s := SourcesOf(st, t);
      var i := IndexOf(s, url);
      ResetOne(st, t, url) ==
        (true, MState(Put(st.sources, t, s[i := ResetSource(s[i])]), StatusWith(st.status, t, url, Status(true, 0, 0)), st.saves))
  {
    ReplaceAt(st, t, url, ResetSource);
  }

  lemma UpdatedAt(st: MState, t: string, url: string, success: bool, now: int, maxRetries: int)
    requires IndexOf(SourcesOf(st, t), url) < |SourcesOf(st, t)|
    ensures var s := SourcesOf(st, t);
      var i := IndexOf(s, url);
      var src := Recorded(s[i], success, now, maxRetries);
      Updated(st, t, url, success, now, maxRetries) ==
        MState(Put(st.sources, t, s[i := src]), StatusWith(st.status, t, url, StatusOf(src)),
               st.saves + if Disables(s[i], success, maxRetries) then 1 else 0)
  {
    ReplaceAt(st, t, url, RecordFn(success, now, maxRetries));
  }

  // ----- register_api_source -----

  /**
   * `register_api_source`: the type gets a list if it has none; a URL already
   * in it changes nothing more; otherwise the source goes last and its
   * status entry is written.
   */
  function Registered(st: MState, t: string, src: ApiSource): MState {
    var s := SourcesOf(st, t);
    var st1 := if t in Keys(st.sources) then st else st.(sources := Put(st.sources, t, []));
    if IndexOf(s, src.url) < |s| then st1
    else
      var inner := Find(st1.status, t).GetOr([]);
      st1.(sources := Put(st1.sources, t, s + [src]), status := Put(st1.status, t, Put(inner, src.url, StatusOf(src))))
  }

  lemma RegisteredSources(st: MState, t: string, src: ApiSource, t': string)
    ensures var s := SourcesOf(st, t);
      var after := Registered(st, t, src);
      && t in Keys(after.sources)
      && SourcesOf(after, t') == (if t' != t then SourcesOf(st, t') else if IndexOf(s, src.url) < |s| then s else s + [src])
      && after.saves == st.saves
  {
    var s := SourcesOf(st, t);
    PutFind(st.sources, t, [], t');
    var st1 := if t in Keys(st.sources) then st else st.(sources := Put(st.sources, t, []));
    PutFind(st1.sources, t, s + [src], t');
  }

  /**
   * A URL already present leaves the list as it was; a new one is appended
   * and is then what `get_api_source` finds under its URL; other types are
   * untouched, nothing is saved, and URLs stay unique.
   */
  lemma RegisteredSpec(st: MState, t: string, src: ApiSource, t': string)
    ensures var s := SourcesOf(st, t);
      var after := Registered(st, t, src);
      && t in Keys(after.sources)
      && (t' != t ==> SourcesOf(after, t') == SourcesOf(st, t'))
      && (SourceIn(s, src.url).Some? ==> SourcesOf(after, t) == s)
      && (SourceIn(s, src.url).None? ==> SourcesOf(after, t) == s + [src] && SourceAt(after, t, src.url) == Some(src))
      && (UniqueUrls(s) ==> UniqueUrls(SourcesOf(after, t)))
      && after.saves == st.saves
  {
    var s := SourcesOf(st, t);
    var after := Registered(st, t, src);
    RegisteredSources(st, t, src, t');
    RegisteredSources(st, t, src, t);
    if IndexOf(s, src.url) < |s| {
      assert SourcesOf(after, t) == s;
      assert SourceIn(s, src.url).Some?;
    } else {
      assert SourcesOf(after, t) == s + [src];
      assert SourceIn(s, src.url).None?;
      IndexOfAt(s + [src], src.url, |s|);
      AppendNewUrl(s, src);
      assert SourceAt(after, t, src.url) == Some(src);
    }
  }

  /** Appending a source whose URL is not in the list keeps URLs unique. */
  lemma AppendNewUrl(s: seq<ApiSource>, src: ApiSource)
    requires IndexOf(s, src.url) == |s|
    ensures UniqueUrls(s) ==> UniqueUrls(s + [src])
  {
    var s' := s + [src];
    assert forall i :: 0 <= i < |s| ==> s'[i] == s[i];
  }

  // ----- enable, disable, reset -----

  function EnableFn(b: bool): (f: ApiSource -> ApiSource)
    ensures KeepsUrl(f)
  {
    (x: ApiSource) => x.(enabled := b)
  }

  /** `enable_api_source` (b true) and `disable_api_source` (b false): the flag of the source and of its status entry. */
  function SetEnabled(st: MState, t: string, url: string, b: bool): (bool, MState) {
    if SourceAt(st, t, url).None? then (false, st)
    else (true, Replace(st, t, url, EnableFn(b)).(status := StatusEnabled(st.status, t, url, b), saves := st.saves + 1))
  }

  /** The freshly reset counters. */
  function ResetSource(s: ApiSource): ApiSource {
    s.(enabled := true, failureCount := 0, lastSuccess := 0)
  }

  lemma ResetKeepsUrl()
    ensures KeepsUrl(ResetSource)
  {
  }

  /** `reset_api_source`: enabled, zero counters, status entry rewritten; no save. */
  function ResetOne(st: MState, t: string, url: string): (bool, MState) {
    if SourceAt(st, t, url).None? then (false, st)
    else (true, Replace(st, t, url, ResetSource).(status := StatusWith(st.status, t, url, Status(true, 0, 0))))
  }

  /**
   * `enable_api_source` and `disable_api_source` answer whether the URL is
   * registered for the type; then that source, and no other of any type,
   * has the new flag and nothing else of it changed, and the state is saved
   * once.
   */
  lemma SetEnabledSpec(st: MState, t: string, url: string, b: bool, t': string, other: string)
    ensures var (found, after) := SetEnabled(st, t, url, b);
      && (found <==> SourceAt(st, t, url).Some?)
      && (found ==> SourceAt(after, t, url) == Some(SourceAt(st, t, url).value.(enabled := b)))
      && (other != url || t' != t ==> SourceAt(after, t', other) == SourceAt(st, t', other))
      && Urls(SourcesOf(after, t')) == Urls(SourcesOf(st, t'))
      && after.saves == st.saves + (if found then 1 else 0)
  {
    ReplaceSources(st, t, url, EnableFn(b), t');
    ReplaceSources(st, t, url, EnableFn(b), t);
    ReplacedSpec(SourcesOf(st, t), url, EnableFn(b), other);
  }

  /**
   * `reset_api_source` answers whether the URL is registered for the type;
   * then that source is enabled with zero counters and nothing else of it
   * changed, no other source changes, and nothing is saved.
   */
  lemma ResetOneSpec(st: MState, t: string, url: string, t': string, other: string)
    ensures var (found, after) := ResetOne(st, t, url);
      && (found <==> SourceAt(st, t, url).Some?)
      && (found ==> SourceAt(after, t, url) == Some(ResetSource(SourceAt(st, t, url).value)))
      && (other != url || t' != t ==> SourceAt(after, t', other) == SourceAt(st, t', other))
      && SourcesOf(after, t') == (if t' == t then Replaced(SourcesOf(st, t), url, ResetSource) else SourcesOf(st, t'))
      && Urls(SourcesOf(after, t')) == Urls(SourcesOf(st, t'))
      && after.saves == st.saves
  {
    ResetKeepsUrl();
    ReplaceSources(st, t, url, ResetSource, t');
    ReplaceSources(st, t, url, ResetSource, t);
    ReplacedSpec(SourcesOf(st, t), url, ResetSource, other);
  }

  /** Every source of a list reset. */
  function AllReset(s: seq<ApiSource>): (r: seq<ApiSource>)
    ensures |r| == |s| && Urls(r) == Urls(s)
    ensures forall i :: 0 <= i < |s| ==> r[i] == ResetSource(s[i])
  {
    seq(|s|, i requires 0 <= i < |s| => ResetSource(s[i]))
  }

  /** `reset_api_source` for each URL in turn, counting the ones found. */
  function ResetUrls(st: MState, t: string, urls: seq<string>): (nat, MState) {
    if |urls| == 0 then (0, st)
    else
      var (c, st1) := ResetUrls(st, t, urls[..|urls| - 1]);
      var (found, st2) := ResetOne(st1, t, urls[|urls| - 1]);
      (c + if found then 1 else 0, st2)
  }

  /** One more URL reset. */
  lemma ResetUrlsLast(st: MState, t: string, urls: seq<string>)
    requires |urls| > 0
    ensures var prev := ResetUrls(st, t, urls[..|urls| - 1]);
      var one := ResetOne(prev.1, t, urls[|urls| - 1]);
      ResetUrls(st, t, urls) == (prev.0 + (if one.0 then 1 else 0), one.1)
  {
  }

  /** A reset type is saved exactly when one of its URLs was found. */
  lemma ResetTypeAfter(st: MState, t: string, c: nat, st1: MState)
    requires (c, st1) == ResetUrls(st, t, Urls(SourcesOf(st, t)))
    ensures ResetType(st, t) == (c, if c > 0 then st1.(saves := st1.saves + 1) else st1)
  {
  }

  /** `reset_api_sources`: reset every source of the type, then save once if any was. */
  function ResetType(st: MState, t: string): (nat, MState) {
    var (c, st1) := ResetUrls(st, t, Urls(SourcesOf(st, t)));
    (c, if c > 0 then st1.(saves := st1.saves + 1) else st1)
  }

  /** After resetting the first n URLs of a unique list, those n sources are reset and the rest are as they were. */
  lemma {:induction false} ResetUrlsSpec(st: MState, t: string, n: nat)
    requires n <= |SourcesOf(st, t)| && UniqueUrls(SourcesOf(st, t))
    ensures var s := SourcesOf(st, t);
      var (c, after) := ResetUrls(st, t, Urls(s)[..n]);
      && c == n
      && |SourcesOf(after, t)| == |s|
      && (forall i :: 0 <= i < |s| ==> SourcesOf(after, t)[i] == if i < n then ResetSource(s[i]) else s[i])
      && (forall t' :: t' != t ==> SourcesOf(after, t') == SourcesOf(st, t'))
      && after.saves == st.saves
  {
    var s := SourcesOf(st, t);
    if n > 0 {
      ResetUrlsSpec(st, t, n - 1);
      assert Urls(s)[..n][..n - 1] == Urls(s)[..n - 1];
      var (c, st1) := ResetUrls(st, t, Urls(s)[..n - 1]);
      var s1 := SourcesOf(st1, t);
      var u := s[n - 1].url;
      IndexOfAt(s1, u, n - 1);
      ResetKeepsUrl();
      ReplacedSpec(s1, u, ResetSource, u);
      forall t' | t' != t
        ensures SourcesOf(ResetOne(st1, t, u).1, t') == SourcesOf(st, t')
      {
        ReplaceSources(st1, t, u, ResetSource, t');
      }
      ReplaceSources(st1, t, u, ResetSource, t);
    }
  }

  /**
   * `reset_api_sources` answers the number of sources of the type, leaves
   * every one of them enabled with zero counters (and nothing else of them
   * changed), touches no other type, and saves exactly when it reset any.
   */
  lemma ResetTypeSpec(st: MState, t: string)
    requires UniqueUrls(SourcesOf(st, t))
    ensures var s := SourcesOf(st, t);
      var (c, after) := ResetType(st, t);
      && c == |s|
      && SourcesOf(after, t) == AllReset(s)
      && (forall t' :: t' != t ==> SourcesOf(after, t') == SourcesOf(st, t'))
      && after.saves == st.saves + (if |s| > 0 then 1 else 0)
  {
    var s := SourcesOf(st, t);
    ResetUrlsSpec(st, t, |s|);
    assert Urls(s)[..|s|] == Urls(s);
    assert SourcesOf(ResetType(st, t).1, t) == AllReset(s);
  }

  // ----- update_api_source_status -----

  /** The source after one recorded outcome. */
  function Recorded(s: ApiSource, success: bool, now: int, maxRetries: int): ApiSource {
    if success then s.(lastSuccess := now, failureCount := 0)
    else
      var f := s.failureCount + 1;
      s.(failureCount := f, enabled := s.enabled && f < maxRetries * 2)
  }

  function RecordFn(success: bool, now: int, maxRetries: int): (f: ApiSource -> ApiSource)
    ensures KeepsUrl(f)
  {
    (x: ApiSource) => Recorded(x, success, now, maxRetries)
  }

  /** The failure that turns an enabled source off, the one transition `update_api_source_status` saves on. */
  predicate Disables(s: ApiSource, success: bool, maxRetries: int) {
    !success && s.enabled && s.failureCount + 1 >= maxRetries * 2
  }

  /** `update_api_source_status`: an unknown URL changes nothing. */
  function Updated(st: MState, t: string, url: string, success: bool, now: int, maxRetries: int): (r: MState)
    ensures SourceAt(st, t, url).None? ==> r == st
    ensures r.saves == st.saves || r.saves == st.saves + 1
  {
    match SourceAt(st, t, url)
    case None => st
    case Some(src) =>
      Replace(st, t, url, RecordFn(success, now, maxRetries)).(
        status := StatusWith(st.status, t, url, StatusOf(Recorded(src, success, now, maxRetries))),
        saves := st.saves + if Disables(src, success, maxRetries) then 1 else 0)
  }

  /**
   * One recorded outcome: a success zeroes the failure count and stamps
   * `now`, leaving `enabled` alone (it never re-enables); a failure adds
   * exactly one, and the source is on afterwards only if it was on and is
   * still under 2×max_retries failures; URL, priority and parser stay.
   */
  lemma RecordedSpec(x: ApiSource, success: bool, now: int, maxRetries: int)
    ensures var r := Recorded(x, success, now, maxRetries);
      && r.url == x.url && r.priority == x.priority && r.parser == x.parser
      && (success ==> r.failureCount == 0 && r.lastSuccess == now && r.enabled == x.enabled)
      && (!success ==> r.failureCount == x.failureCount + 1 && r.lastSuccess == x.lastSuccess)
      && (!success ==> (r.enabled <==> x.enabled && x.failureCount + 1 < maxRetries * 2))
      && (Disables(x, success, maxRetries) <==> x.enabled && !r.enabled)
  {
  }

  /**
   * `update_api_source_status` changes only the source with the URL, which
   * is then found with the outcome recorded, saves exactly when it turns an
   * enabled source off, and leaves every other URL and type as it was.
   */
  lemma UpdatedSpec(st: MState, t: string, url: string, success: bool, now: int, maxRetries: int, t': string, other: string)
    ensures var after := Updated(st, t, url, success, now, maxRetries);
      var before := SourceAt(st, t, url);
      && (before.None? ==> after == st)
      && (before.Some? ==> SourceAt(after, t, url) == Some(Recorded(before.value, success, now, maxRetries)))
      && (before.Some? ==> after.saves == st.saves + if before.value.enabled && !SourceAt(after, t, url).value.enabled then 1 else 0)
      && (other != url || t' != t ==> SourceAt(after, t', other) == SourceAt(st, t', other))
      && Urls(SourcesOf(after, t')) == Urls(SourcesOf(st, t'))
  {
    var f := RecordFn(success, now, maxRetries);
    ReplaceSources(st, t, url, f, t');
    ReplaceSources(st, t, url, f, t);
    ReplacedSpec(SourcesOf(st, t), url, f, other);
    if SourceAt(st, t, url).Some? {
      RecordedSpec(SourceAt(st, t, url).value, success, now, maxRetries);
    }
  }

  // ----- get_best_api_source -----

  /** `get_best_api_source`: the head of the enabled sources sorted by priority. */
  function Best(s: seq<ApiSource>): (r: Option<ApiSource>)
    ensures r.None? <==> forall x :: x in s ==> !x.enabled
    ensures r.Some? ==> r.value in s && r.value.enabled
  {
    var e := Enabled(s);
    if |e| == 0 then
      assert e == [];
      None
    else
      var b := ByPriority(e);
      assert b[0] in multiset(b);
      assert b[0] in e;
      assert e[0] in s && e[0].enabled;
      Some(b[0])
  }

  /**
   * None exactly when no source is enabled; otherwise an enabled source of
   * least priority, and of those the earliest registered: the enabled
   * source at `FirstMinIndex`.
   */
  lemma BestSpec(s: seq<ApiSource>)
    ensures Best(s).None? <==> forall x :: x in s ==> !x.enabled
    ensures Best(s).Some? ==>
      && Best(s).value in s && Best(s).value.enabled
      && (forall x :: x in s && x.enabled ==> Best(s).value.priority <= x.priority)
    ensures |Enabled(s)| > 0 ==> Best(s) == Some(Enabled(s)[FirstMinIndex(Enabled(s))])
  {
    var e := Enabled(s);
    if |e| > 0 {
      ByPriorityHead(e);
      var i := FirstMinIndex(e);
      assert e[i] in e;
      forall x | x in s && x.enabled
        ensures e[i].priority <= x.priority
      {
        assert x in e;
        var j :| 0 <= j < |e| && e[j] == x;
      }
    } else {
      forall x | x in s
        ensures !x.enabled
      {
        assert x.enabled ==> x in e;
      }
    }
  }

  // ----- fetch_data and _try_failover_sources -----

  /** What one request to a source gave: parsed data, a parse error or a request error. */
  datatype Outcome = Parsed(data: NewsData) | ParseError(error: Exc) | RequestError(error: Exc)

  /** `NoAvailableAPIException(news_type=...)` with its default message. */
  function NoSource(t: string): Exc {
    NoAvailable("没有可用的API源", t)
  }

  /** The failover candidates: the enabled sources other than the failed URL, by priority. */
  function Candidates(st: MState, t: string, failedUrl: string): seq<ApiSource> {
    ByPriority(Without(Enabled(SourcesOf(st, t)), failedUrl))
  }

  /**
   * The loop of `_try_failover_sources` over the candidates, the k-th request
   * of the call going to `call(source, k)`: the data of the first that
   * parses, or `NoAvailableAPIException` when none does, and the next request
   * number.
   */
  function ChainResult(t: string, cands: seq<ApiSource>, k: nat, call: (ApiSource, nat) -> Outcome)
    : (r: (Result<NewsData, Exc>, nat))
    ensures k < r.1 <= k + |cands| || (cands == [] && r.1 == k)
    ensures r.0.Failure? ==> r.0 == Failure(NoSource(t)) && r.1 == k + |cands|
    decreases |cands|
  {
    if |cands| == 0 then (Failure(NoSource(t)), k)
    else match call(cands[0], k)
      case Parsed(d) => (Success(d), k + 1)
      case _ => ChainResult(t, cands[1..], k + 1, call)
  }

  /** What the same loop records: a success for the candidate that parses, a failure for each before it. */
  function ChainState(
    st: MState, t: string, cands: seq<ApiSource>, k: nat,
    call: (ApiSource, nat) -> Outcome, now: int, maxRetries: int): MState
    decreases |cands|
  {
    if |cands| == 0 then st
    else match call(cands[0], k)
      case Parsed(_) => Updated(st, t, cands[0].url, true, now, maxRetries)
      case _ => ChainState(Updated(st, t, cands[0].url, false, now, maxRetries), t, cands[1..], k + 1, call, now, maxRetries)
  }

  /** One step of the failover loop. */
  lemma ChainStep(
    st: MState, t: string, cands: seq<ApiSource>, k: nat,
    call: (ApiSource, nat) -> Outcome, now: int, maxRetries: int)
    requires |cands| > 0
    ensures var o := call(cands[0], k);
      && ChainResult(t, cands, k, call) ==
           (if o.Parsed? then (Success(o.data), k + 1) else ChainResult(t, cands[1..], k + 1, call))
      && ChainState(st, t, cands, k, call, now, maxRetries) ==
           (if o.Parsed? then Updated(st, t, cands[0].url, true, now, maxRetries)
            else ChainState(Updated(st, t, cands[0].url, false, now, maxRetries), t, cands[1..], k + 1, call, now, maxRetries))
  {
  }

  /** The candidate at j answers: the chain ends there, recording its success. */
  lemma ChainParsed(
    st: MState, t: string, cands: seq<ApiSource>, j: nat, k: nat,
    call: (ApiSource, nat) -> Outcome, now: int, maxRetries: int)
    requires j < |cands| && call(cands[j], k).Parsed?
    ensures ChainResult(t, cands[j..], k, call) == (Success(call(cands[j], k).data), k + 1)
    ensures ChainState(st, t, cands[j..], k, call, now, maxRetries) == Updated(st, t, cands[j].url, true, now, maxRetries)
  {
    ChainStep(st, t, cands[j..], k, call, now, maxRetries);
    assert cands[j..][0] == cands[j];
  }

  /** The candidate at j fails: the chain records the failure and goes on from j + 1. */
  lemma ChainFailed(
    st: MState, t: string, cands: seq<ApiSource>, j: nat, k: nat,
    call: (ApiSource, nat) -> Outcome, now: int, maxRetries: int)
    requires j < |cands| && !call(cands[j], k).Parsed?
    ensures ChainResult(t, cands[j..], k, call) == ChainResult(t, cands[j + 1..], k + 1, call)
    ensures ChainState(st, t, cands[j..], k, call, now, maxRetries) ==
      ChainState(Updated(st, t, cands[j].url, false, now, maxRetries), t, cands[j + 1..], k + 1, call, now, maxRetries)
  {
    ChainStep(st, t, cands[j..], k, call, now, maxRetries);
    assert cands[j..][0] == cands[j] && cands[j..][1..] == cands[j + 1..];
  }

  /** `_try_failover_sources`: no candidate at all raises at once. Answers the state, the result and the next request number. */
  function Failover(
    st: MState, t: string, failedUrl: string, k: nat,
    call: (ApiSource, nat) -> Outcome, now: int, maxRetries: int)
    : (r: (MState, Result<NewsData, Exc>, nat))
    ensures r.1.Failure? ==> r.1.error == NoSource(t) && r.2 == k + |Candidates(st, t, failedUrl)|
    ensures k <= r.2 <= k + |Candidates(st, t, failedUrl)|
    ensures Candidates(st, t, failedUrl) == [] ==> r == (st, Failure(NoSource(t)), k)
  {
    var cands := Candidates(st, t, failedUrl);
    var (r, k') := ChainResult(t, cands, k, call);
    (ChainState(st, t, cands, k, call, now, maxRetries), r, k')
  }

  /**
   * `fetch_data`. No enabled source raises with no request. A parse failure
   * of the primary is recorded (line 303) and then, as the resulting
   * `APIException` is caught by the outer handler, recorded again (line
   * 319); with failover on, a failover chain that ends in
   * `NoAvailableAPIException` is followed by a second chain. With no
   * enabled source it raises `NoAvailableAPIException` and changes nothing.
   */
  function FetchData(
    st: MState, t: string, failover: bool,
    call: (ApiSource, nat) -> Outcome, now: int, maxRetries: int)
    : (r: (MState, Result<NewsData, Exc>))
    ensures (forall x :: x in SourcesOf(st, t) ==> !x.enabled) ==> r == (st, Failure(NoSource(t)))
  {
    match Best(SourcesOf(st, t))
    case None => (st, Failure(NoSource(t)))
    case Some(src) =>
      match call(src, 0)
      case Parsed(d) => (Updated(st, t, src.url, true, now, maxRetries), Success(d))
      case ParseError(e) => AfterParseError(st, t, src, e, failover, call, now, maxRetries)
      case RequestError(e) => AfterRequestError(st, t, src, e, failover, call, now, maxRetries)
  }

  /** `fetch_data` once the best source's response failed to parse. */
  function AfterParseError(
    st: MState, t: string, src: ApiSource, e: Exc, failover: bool,
    call: (ApiSource, nat) -> Outcome, now: int, maxRetries: int)
    : (MState, Result<NewsData, Exc>)
  {
    var st1 := Updated(st, t, src.url, false, now, maxRetries);
    if failover then
      var (st2, r, k) := Failover(st1, t, src.url, 1, call, now, maxRetries);
      if r.Success? then (st2, r)
      else
        var st3 := Updated(st2, t, src.url, false, now, maxRetries);
        var (st4, r2, _) := Failover(st3, t, src.url, k, call, now, maxRetries);
        (st4, r2)
    else
      var err := ApiParse("API响应解析失败: " + ErrorMessage(e), src.url, src.parser);
      (Updated(st1, t, src.url, false, now, maxRetries), Failure(err))
  }

  /** `fetch_data` once the request to the best source raised. */
  function AfterRequestError(
    st: MState, t: string, src: ApiSource, e: Exc, failover: bool,
    call: (ApiSource, nat) -> Outcome, now: int, maxRetries: int)
    : (MState, Result<NewsData, Exc>)
  {
    var st1 := Updated(st, t, src.url, false, now, maxRetries);
    if failover then
      var (st2, r, _) := Failover(st1, t, src.url, 1, call, now, maxRetries);
      (st2, r)
    else (st1, Failure(e))
  }

  /**
   * The chain succeeds exactly when some candidate parses, with the data of
   * the first that does, after one request per candidate up to it;
   * otherwise it raises `NoAvailableAPIException` after one request per
   * candidate.
   */
  /** The position of the first candidate whose request parses, or the number of candidates. */
  function FirstParsed(cands: seq<ApiSource>, k: nat, call: (ApiSource, nat) -> Outcome): (j: nat)
    ensures j <= |cands|
    ensures j < |cands| ==> call(cands[j], k + j).Parsed?
    ensures forall i :: 0 <= i < j ==> !call(cands[i], k + i).Parsed?
    decreases |cands|
  {
    if |cands| == 0 then 0
    else if call(cands[0], k).Parsed? then 0
    else
      var j := FirstParsed(cands[1..], k + 1, call);
      assert forall i :: 0 < i <= j ==> cands[i] == cands[1..][i - 1] && k + i == k + 1 + (i - 1);
      1 + j
  }

  /**
   * The chain answers the data of the first candidate that parses, after
   * one request per candidate up to it; when none parses it raises
   * `NoAvailableAPIException` after one request per candidate.
   */
  lemma {:induction false} ChainResultSpec(t: string, cands: seq<ApiSource>, k: nat, call: (ApiSource, nat) -> Outcome)
    ensures var j := FirstParsed(cands, k, call);
      ChainResult(t, cands, k, call) ==
        if j < |cands| then (Success(call(cands[j], k + j).data), k + j + 1) else (Failure(NoSource(t)), k + |cands|)
    decreases |cands|
  {
    if |cands| > 0 && !call(cands[0], k).Parsed? {
      ChainResultSpec(t, cands[1..], k + 1, call);
    }
  }

  /** The chain changes no source whose URL is not a candidate's. */
  lemma {:induction false} ChainKeeps(
    st: MState, t: string, cands: seq<ApiSource>, k: nat,
    call: (ApiSource, nat) -> Outcome, now: int, maxRetries: int, other: string)
    requires forall c :: c in cands ==> c.url != other
    ensures SourceAt(ChainState(st, t, cands, k, call, now, maxRetries), t, other) == SourceAt(st, t, other)
    decreases |cands|
  {
    if |cands| > 0 {
      var c := cands[0];
      UpdatedSpec(st, t, c.url, true, now, maxRetries, t, other);
      UpdatedSpec(st, t, c.url, false, now, maxRetries, t, other);
      if !call(c, k).Parsed? {
        assert forall x :: x in cands[1..] ==> x in cands;
        ChainKeeps(Updated(st, t, c.url, false, now, maxRetries), t, cands[1..], k + 1, call, now, maxRetries, other);
      }
    }
  }

  /** No candidate has the failed URL, and every candidate is enabled. */
  lemma CandidatesAvoid(st: MState, t: string, failedUrl: string)
    ensures forall c :: c in Candidates(st, t, failedUrl) ==> c.url != failedUrl && c.enabled
  {
    var w := Without(Enabled(SourcesOf(st, t)), failedUrl);
    forall c | c in Candidates(st, t, failedUrl)
      ensures c.url != failedUrl && c.enabled
    {
      assert c in multiset(ByPriority(w));
    }
  }

  /** A failover run leaves the source of the failed URL as it was. */
  lemma FailoverKeepsFailed(
    st: MState, t: string, failedUrl: string, k: nat,
    call: (ApiSource, nat) -> Outcome, now: int, maxRetries: int)
    ensures SourceAt(Failover(st, t, failedUrl, k, call, now, maxRetries).0, t, failedUrl) == SourceAt(st, t, failedUrl)
  {
    CandidatesAvoid(st, t, failedUrl);
    ChainKeeps(st, t, Candidates(st, t, failedUrl), k, call, now, maxRetries, failedUrl);
  }

  /** The candidate at i once the chain has stopped at j: failed before j, succeeded at j, untouched after. */
  function ChainEffect(before: ApiSource, i: nat, j: nat, now: int, maxRetries: int): ApiSource {
    if i < j then Recorded(before, false, now, maxRetries)
    else if i == j then Recorded(before, true, now, maxRetries)
    else before
  }

  /**
   * What the chain records for the candidate at i, j being the first that
   * parses: a failure when i comes before j, a success when i is j, and
   * nothing when i comes after it (the loop has returned).
   */
  lemma {:induction false} ChainRecords(
    st: MState, t: string, cands: seq<ApiSource>, k: nat,
    call: (ApiSource, nat) -> Outcome, now: int, maxRetries: int, i: nat)
    requires i < |cands| && UniqueUrls(cands)
    requires SourceAt(st, t, cands[i].url).Some?
    ensures SourceAt(ChainState(st, t, cands, k, call, now, maxRetries), t, cands[i].url)
      == Some(ChainEffect(SourceAt(st, t, cands[i].url).value, i, FirstParsed(cands, k, call), now, maxRetries))
    decreases |cands|
  {
    var c := cands[0];
    var url := cands[i].url;
    var rest := cands[1..];
    TailUnique(cands);
    if call(c, k).Parsed? {
      ChainHeadParses(st, t, cands, k, call, now, maxRetries, i);
    } else if i == 0 {
      ChainHeadFails(st, t, cands, k, call, now, maxRetries);
    } else {
      var st1 := Updated(st, t, c.url, false, now, maxRetries);
      ChainFirstFails(st, t, cands, k, call, now, maxRetries);
      assert cands[i] == rest[i - 1];
      UpdatedKeepsOther(st, t, c.url, false, now, maxRetries, url);
      ChainRecords(st1, t, rest, k + 1, call, now, maxRetries, i - 1);
    }
  }

  /** The head parses: it has its success recorded, and no later candidate is touched. */
  lemma ChainHeadParses(
    st: MState, t: string, cands: seq<ApiSource>, k: nat,
    call: (ApiSource, nat) -> Outcome, now: int, maxRetries: int, i: nat)
    requires i < |cands| && call(cands[0], k).Parsed?
    requires forall x :: x in cands[1..] ==> x.url != cands[0].url
    requires SourceAt(st, t, cands[i].url).Some?
    ensures SourceAt(ChainState(st, t, cands, k, call, now, maxRetries), t, cands[i].url)
      == Some(ChainEffect(SourceAt(st, t, cands[i].url).value, i, FirstParsed(cands, k, call), now, maxRetries))
  {
    var url := cands[i].url;
    assert ChainState(st, t, cands, k, call, now, maxRetries) == Updated(st, t, cands[0].url, true, now, maxRetries);
    if i == 0 {
      UpdatedOnce(st, t, url, true, now, maxRetries);
    } else {
      assert cands[i] == cands[1..][i - 1];
      UpdatedKeepsOther(st, t, cands[0].url, true, now, maxRetries, url);
    }
  }

  /** The head fails: it has one failure recorded, and the rest of the chain does not touch it again. */
  lemma ChainHeadFails(
    st: MState, t: string, cands: seq<ApiSource>, k: nat,
    call: (ApiSource, nat) -> Outcome, now: int, maxRetries: int)
    requires |cands| > 0 && !call(cands[0], k).Parsed?
    requires forall x :: x in cands[1..] ==> x.url != cands[0].url
    requires SourceAt(st, t, cands[0].url).Some?
    ensures SourceAt(ChainState(st, t, cands, k, call, now, maxRetries), t, cands[0].url)
      == Some(ChainEffect(SourceAt(st, t, cands[0].url).value, 0, FirstParsed(cands, k, call), now, maxRetries))
  {
    var url := cands[0].url;
    var st1 := Updated(st, t, url, false, now, maxRetries);
    ChainFirstFails(st, t, cands, k, call, now, maxRetries);
    UpdatedOnce(st, t, url, false, now, maxRetries);
    ChainKeeps(st1, t, cands[1..], k + 1, call, now, maxRetries, url);
  }

  /** Without its head, a list with unique URLs still has them, none of them the head's. */
  lemma TailUnique(cands: seq<ApiSource>)
    requires |cands| > 0 && UniqueUrls(cands)
    ensures UniqueUrls(cands[1..])
    ensures forall x :: x in cands[1..] ==> x.url != cands[0].url
  {
    var rest := cands[1..];
    forall a | 0 <= a < |rest|
      ensures rest[a] == cands[a + 1]
    {
    }
  }

  /** A head that does not parse is recorded as a failure, and the chain goes on with the rest. */
  lemma ChainFirstFails(
    st: MState, t: string, cands: seq<ApiSource>, k: nat,
    call: (ApiSource, nat) -> Outcome, now: int, maxRetries: int)
    requires |cands| > 0 && !call(cands[0], k).Parsed?
    ensures ChainState(st, t, cands, k, call, now, maxRetries) ==
      ChainState(Updated(st, t, cands[0].url, false, now, maxRetries), t, cands[1..], k + 1, call, now, maxRetries)
    ensures FirstParsed(cands, k, call) == 1 + FirstParsed(cands[1..], k + 1, call)
  {
  }

  /** Recording an outcome for one URL leaves what another URL finds as it was. */
  lemma UpdatedKeepsOther(st: MState, t: string, url: string, success: bool, now: int, maxRetries: int, other: string)
    requires other != url
    ensures SourceAt(Updated(st, t, url, success, now, maxRetries), t, other) == SourceAt(st, t, other)
  {
    UpdatedSpec(st, t, url, success, now, maxRetries, t, other);
  }

  /** Keeping only some elements keeps URLs unique. */
  lemma EnabledUnique(s: seq<ApiSource>)
    requires UniqueUrls(s)
    ensures UniqueUrls(Enabled(s))
    decreases |s|
  {
    if |s| > 0 {
      var init := s[..|s| - 1];
      assert UniqueUrls(init) by {
        forall a, b | 0 <= a < b < |init| ensures init[a].url != init[b].url {
          assert init[a] == s[a] && init[b] == s[b];
        }
      }
      EnabledUnique(init);
      var e := Enabled(init);
      forall x | x in e
        ensures x.url != s[|s| - 1].url
      {
        var m :| 0 <= m < |init| && init[m] == x;
        assert x == s[m];
      }
    }
  }

  lemma WithoutUnique(s: seq<ApiSource>, url: string)
    requires UniqueUrls(s)
    ensures UniqueUrls(Without(s, url))
    decreases |s|
  {
    if |s| > 0 {
      var init := s[..|s| - 1];
      assert UniqueUrls(init) by {
        forall a, b | 0 <= a < b < |init| ensures init[a].url != init[b].url {
          assert init[a] == s[a] && init[b] == s[b];
        }
      }
      WithoutUnique(init, url);
      var w := Without(init, url);
      forall x | x in w
        ensures x.url != s[|s| - 1].url
      {
        var m :| 0 <= m < |init| && init[m] == x;
        assert x == s[m];
      }
    }
  }

  /** The list without its element at m: the other elements in order, still with unique URLs. */
  lemma RemoveAt(s: seq<ApiSource>, m: nat) returns (s': seq<ApiSource>)
    requires m < |s| && UniqueUrls(s)
    ensures multiset(s') == multiset(s) - multiset{s[m]}
    ensures UniqueUrls(s')
    ensures forall x :: x in s' ==> x.url != s[m].url
  {
    s' := s[..m] + s[m + 1..];
    RemoveAtMultiset(s, m);
    RemoveAtIndex(s, m, s');
    forall i, j | 0 <= i < j < |s'|
      ensures s'[i].url != s'[j].url
    {
      var i0, j0 := if i < m then i else i + 1, if j < m then j else j + 1;
      assert s'[i] == s[i0] && s'[j] == s[j0] && i0 < j0;
    }
    forall x | x in s'
      ensures x.url != s[m].url
    {
      var a :| 0 <= a < |s'| && s'[a] == x;
      assert x == s[if a < m then a else a + 1];
    }
  }

  /** Dropping position m removes exactly one occurrence of s[m]. */
  lemma RemoveAtMultiset<T>(s: seq<T>, m: nat)
    requires m < |s|
    ensures multiset(s[..m] + s[m + 1..]) == multiset(s) - multiset{s[m]}
  {
    assert s == s[..m] + [s[m]] + s[m + 1..];
  }

  /** After dropping position m, later elements move one place left. */
  lemma RemoveAtIndex<T>(s: seq<T>, m: nat, s': seq<T>)
    requires m < |s| && s' == s[..m] + s[m + 1..]
    ensures |s'| == |s| - 1
    ensures forall a :: 0 <= a < |s'| ==> s'[a] == s[if a < m then a else a + 1]
  {
  }

  /** A permutation of a list with unique URLs has unique URLs. */
  lemma {:induction false} PermutationUnique(s: seq<ApiSource>, p: seq<ApiSource>)
    requires UniqueUrls(s) && multiset(p) == multiset(s)
    ensures UniqueUrls(p)
    decreases |p|
  {
    if |p| > 0 {
      var init := p[..|p| - 1];
      var x := p[|p| - 1];
      assert p == init + [x];
      assert multiset(p) == multiset(init) + multiset{x};
      assert x in multiset(s);
      var m :| 0 <= m < |s| && s[m] == x;
      var s' := RemoveAt(s, m);
      assert multiset(init) == multiset(s');
      PermutationUnique(s', init);
      forall i, j | 0 <= i < j < |p|
        ensures p[i].url != p[j].url
      {
        assert p[i] == init[i];
        if j < |init| {
          assert p[j] == init[j];
        } else {
          assert p[j] == x;
          assert init[i] in multiset(s');
        }
      }
    }
  }

  /** The failover candidates of a list with unique URLs have unique URLs, and each is what its URL finds. */
  lemma CandidatesFound(st: MState, t: string, failedUrl: string)
    requires UniqueUrls(SourcesOf(st, t))
    ensures var cands := Candidates(st, t, failedUrl);
      && UniqueUrls(cands)
      && forall c :: c in cands ==> SourceAt(st, t, c.url) == Some(c)
  {
    var s := SourcesOf(st, t);
    var w := Without(Enabled(s), failedUrl);
    EnabledUnique(s);
    WithoutUnique(Enabled(s), failedUrl);
    PermutationUnique(w, Candidates(st, t, failedUrl));
    forall c | c in Candidates(st, t, failedUrl)
      ensures SourceAt(st, t, c.url) == Some(c)
    {
      assert c in multiset(ByPriority(w));
      var n :| 0 <= n < |s| && s[n] == c;
      var m := IndexOf(s, c.url);
      assert m == n;
    }
  }

  /**
   * What a failover run records for its i-th candidate, j being the first
   * candidate that parses: every candidate before j has one failure
   * recorded, j has its success recorded, and those after j are untouched.
   */
  lemma FailoverRecords(
    st: MState, t: string, failedUrl: string, k: nat,
    call: (ApiSource, nat) -> Outcome, now: int, maxRetries: int, i: nat)
    requires UniqueUrls(SourcesOf(st, t))
    requires i < |Candidates(st, t, failedUrl)|
    ensures var cands := Candidates(st, t, failedUrl);
      var j := FirstParsed(cands, k, call);
      var c := cands[i];
      var after := SourceAt(Failover(st, t, failedUrl, k, call, now, maxRetries).0, t, c.url);
      && SourceAt(st, t, c.url) == Some(c)
      && (i < j ==> after == Some(Recorded(c, false, now, maxRetries)))
      && (i == j ==> after == Some(Recorded(c, true, now, maxRetries)))
      && (i > j ==> after == Some(c))
  {
    var cands := Candidates(st, t, failedUrl);
    CandidatesFound(st, t, failedUrl);
    assert cands[i] in cands;
    ChainRecords(st, t, cands, k, call, now, maxRetries, i);
  }

  /** A failover run changes no source whose URL is not a candidate's. */
  lemma FailoverKeepsOthers(
    st: MState, t: string, failedUrl: string, k: nat,
    call: (ApiSource, nat) -> Outcome, now: int, maxRetries: int, other: string)
    requires forall c :: c in Candidates(st, t, failedUrl) ==> c.url != other
    ensures SourceAt(Failover(st, t, failedUrl, k, call, now, maxRetries).0, t, other) == SourceAt(st, t, other)
  {
    ChainKeeps(st, t, Candidates(st, t, failedUrl), k, call, now, maxRetries, other);
  }

  /** One recorded outcome for a registered URL: still found, with the outcome recorded. */
  lemma UpdatedOnce(st: MState, t: string, url: string, success: bool, now: int, maxRetries: int)
    requires SourceAt(st, t, url).Some?
    ensures SourceAt(Updated(st, t, url, success, now, maxRetries), t, url)
      == Some(Recorded(SourceAt(st, t, url).value, success, now, maxRetries))
  {
    UpdatedSpec(st, t, url, success, now, maxRetries, t, url);
  }

  /** The primary of `fetch_data` is registered under its URL. */
  lemma BestIsFound(st: MState, t: string)
    requires Best(SourcesOf(st, t)).Some?
    ensures SourceAt(st, t, Best(SourcesOf(st, t)).value.url).Some?
  {
    var s := SourcesOf(st, t);
    BestSpec(s);
    var b := Best(s).value;
    var i :| 0 <= i < |s| && s[i] == b;
  }

  /**
   * A parse error of the primary without failover: its failure count goes
   * up by two (lines 303 and 320) and `APIResponseParseException` for its
   * URL and parser is raised.
   */
  lemma ParseErrorWithoutFailover(st: MState, t: string, call: (ApiSource, nat) -> Outcome, now: int, maxRetries: int)
    requires Best(SourcesOf(st, t)).Some? && call(Best(SourcesOf(st, t)).value, 0).ParseError?
    ensures var src := Best(SourcesOf(st, t)).value;
      var before := SourceAt(st, t, src.url);
      var (after, r) := FetchData(st, t, false, call, now, maxRetries);
      var rec := SourceAt(after, t, src.url);
      && before.Some? && rec.Some?
      && rec.value.failureCount == before.value.failureCount + 2
      && r == Failure(ApiParse("API响应解析失败: " + ErrorMessage(call(src, 0).error), src.url, src.parser))
  {
    var u := Best(SourcesOf(st, t)).value.url;
    BestIsFound(st, t);
    UpdatedOnce(st, t, u, false, now, maxRetries);
    UpdatedOnce(Updated(st, t, u, false, now, maxRetries), t, u, false, now, maxRetries);
  }

  /**
   * A parse error of the primary with failover: its failure count goes up
   * by one if a failover source then parses, and by two otherwise, the
   * second failover run answering the result.
   */
  lemma ParseErrorWithFailover(st: MState, t: string, call: (ApiSource, nat) -> Outcome, now: int, maxRetries: int)
    requires Best(SourcesOf(st, t)).Some? && call(Best(SourcesOf(st, t)).value, 0).ParseError?
    ensures var u := Best(SourcesOf(st, t)).value.url;
      var before := SourceAt(st, t, u);
      var (after, r) := FetchData(st, t, true, call, now, maxRetries);
      var first := Failover(Updated(st, t, u, false, now, maxRetries), t, u, 1, call, now, maxRetries);
      var rec := SourceAt(after, t, u);
      && before.Some? && rec.Some?
      && rec.value.failureCount == before.value.failureCount + (if first.1.Success? then 1 else 2)
      && (first.1.Success? ==> r == first.1)
  {
    var u := Best(SourcesOf(st, t)).value.url;
    BestIsFound(st, t);
    var st1 := Updated(st, t, u, false, now, maxRetries);
    UpdatedOnce(st, t, u, false, now, maxRetries);
    FailoverKeepsFailed(st1, t, u, 1, call, now, maxRetries);
    var (st2, r, k) := Failover(st1, t, u, 1, call, now, maxRetries);
    UpdatedOnce(st2, t, u, false, now, maxRetries);
    FailoverKeepsFailed(Updated(st2, t, u, false, now, maxRetries), t, u, k, call, now, maxRetries);
  }

  /**
   * The primary after `fetch_data` otherwise: a parse resets its failure
   * count and answers the data; a request error counts once and, without
   * failover, is raised as it is.
   */
  lemma OtherOutcomeFailures(st: MState, t: string, failover: bool, call: (ApiSource, nat) -> Outcome, now: int, maxRetries: int)
    requires Best(SourcesOf(st, t)).Some? && !call(Best(SourcesOf(st, t)).value, 0).ParseError?
    ensures var src := Best(SourcesOf(st, t)).value;
      var before := SourceAt(st, t, src.url);
      var (after, r) := FetchData(st, t, failover, call, now, maxRetries);
      var rec := SourceAt(after, t, src.url);
      && before.Some? && rec.Some?
      && (call(src, 0).Parsed? ==> rec.value.failureCount == 0 && r == Success(call(src, 0).data))
      && (call(src, 0).RequestError? ==> rec.value.failureCount == before.value.failureCount + 1)
      && (call(src, 0).RequestError? && !failover ==> r == Failure(call(src, 0).error))
  {
    var u := Best(SourcesOf(st, t)).value.url;
    BestIsFound(st, t);
    UpdatedOnce(st, t, u, true, now, maxRetries);
    UpdatedOnce(st, t, u, false, now, maxRetries);
    FailoverKeepsFailed(Updated(st, t, u, false, now, maxRetries), t, u, 1, call, now, maxRetries);
  }

  // ----- the merge of load_status -----

  /** One saved source entry: its URL ("" when missing or falsy) and its `enabled` value if saved. */
  datatype SavedSource = SavedSource(url: string, enabled: Option<bool>)

  /** Apply one type's saved entries in order: only `enabled`, only on sources that exist. */
  function MergeEntries(st: MState, t: string, entries: seq<SavedSource>): MState {
    if |entries| == 0 then st
    else
      var st1 := MergeEntries(st, t, entries[..|entries| - 1]);
      var e := entries[|entries| - 1];
      if e.url == "" || SourceAt(st1, t, e.url).None? || e.enabled.None? then st1
      else Replace(st1, t, e.url, EnableFn(e.enabled.value))
  }

  /** The merge of `load_status` over an already decoded file: unknown types are skipped. */
  function Merged(st: MState, saved: Dict<string, seq<SavedSource>>): (r: MState)
    ensures Keys(r.sources) == Keys(st.sources) && r.status == st.status && r.saves == st.saves
  {
    if |saved| == 0 then st
    else
      var st1 := Merged(st, saved[..|saved| - 1]);
      var (t, entries) := saved[|saved| - 1];
      if t in Keys(st1.sources) then
        MergeEntriesSpec(st1, t, entries, t);
        MergeEntries(st1, t, entries)
      else st1
  }

  /** Two lists agree on everything but the `enabled` flags. */
  predicate SameButEnabled(a: seq<ApiSource>, b: seq<ApiSource>) {
    |a| == |b| && forall i :: 0 <= i < |a| ==> a[i].(enabled := b[i].enabled) == b[i]
  }

  lemma {:induction false} MergeEntriesSpec(st: MState, t: string, entries: seq<SavedSource>, t': string)
    ensures var after := MergeEntries(st, t, entries);
      && SameButEnabled(SourcesOf(st, t'), SourcesOf(after, t'))
      && Urls(SourcesOf(after, t')) == Urls(SourcesOf(st, t'))
      && (t' != t ==> SourcesOf(after, t') == SourcesOf(st, t'))
      && Keys(after.sources) == Keys(st.sources) && after.status == st.status && after.saves == st.saves
  {
    if |entries| > 0 {
      var st1 := MergeEntries(st, t, entries[..|entries| - 1]);
      MergeEntriesSpec(st, t, entries[..|entries| - 1], t');
      var e := entries[|entries| - 1];
      if e.url != "" && SourceAt(st1, t, e.url).Some? && e.enabled.Some? {
        var f := EnableFn(e.enabled.value);
        ReplaceSources(st1, t, e.url, f, t');
        if t' == t {
          SameButEnabledReplaced(SourcesOf(st, t), SourcesOf(st1, t), e.url, e.enabled.value);
        }
      }
    }
  }

  /** Setting one source's flag keeps a list equal to the original but for the flags. */
  lemma SameButEnabledReplaced(a: seq<ApiSource>, b: seq<ApiSource>, url: string, flag: bool)
    requires SameButEnabled(a, b) && Urls(b) == Urls(a)
    ensures SameButEnabled(a, Replaced(b, url, EnableFn(flag)))
    ensures Urls(Replaced(b, url, EnableFn(flag))) == Urls(a)
  {
    var f := EnableFn(flag);
    ReplacedSpec(b, url, f, url);
    var r := Replaced(b, url, f);
    forall i | 0 <= i < |a|
      ensures a[i].(enabled := r[i].enabled) == r[i]
    {
      if i == IndexOf(b, url) {
        assert r[i] == b[i].(enabled := flag);
      } else {
        assert r[i] == b[i];
      }
    }
  }

  /**
   * The merge changes only `enabled` flags: every list keeps its length,
   * URLs, priorities, parsers and counters, the status mirror is not
   * touched, nothing is saved and no type is added.
   */
  lemma {:induction false} MergedSpec(st: MState, saved: Dict<string, seq<SavedSource>>, t': string)
    ensures var after := Merged(st, saved);
      && SameButEnabled(SourcesOf(st, t'), SourcesOf(after, t'))
      && Urls(SourcesOf(after, t')) == Urls(SourcesOf(st, t'))
      && Keys(after.sources) == Keys(st.sources) && after.status == st.status && after.saves == st.saves
  {
    if |saved| > 0 {
      var st1 := Merged(st, saved[..|saved| - 1]);
      MergedSpec(st, saved[..|saved| - 1], t');
      var (t, entries) := saved[|saved| - 1];
      if t in Keys(st1.sources) {
        MergeEntriesSpec(st1, t, entries, t');
      }
    }
  }

  /** A saved `enabled` for a registered URL is what the source ends up with when it is that type's last entry. */
  lemma MergeLastEntry(st: MState, t: string, entries: seq<SavedSource>)
    requires |entries| > 0
    requires var e := entries[|entries| - 1]; e.url != "" && e.enabled.Some? && SourceAt(st, t, e.url).Some?
    ensures var e := entries[|entries| - 1];
      var after := SourceAt(MergeEntries(st, t, entries), t, e.url);
      after.Some? && after.value.enabled == e.enabled.value
  {
    var e := entries[|entries| - 1];
    var init := entries[..|entries| - 1];
    var st1 := MergeEntries(st, t, init);
    MergeEntriesSpec(st, t, init, t);
    var s := SourcesOf(st1, t);
    SameUrlsSameIndex(s, SourcesOf(st, t), e.url);
    var f := EnableFn(e.enabled.value);
    ReplaceSources(st1, t, e.url, f, t);
    ReplacedSpec(s, e.url, f, e.url);
  }

  // ----- get_api_status -----

  /** One type's report: its name and its sources with all their fields. */
  datatype TypeReport = TypeReport(newsType: string, sources: seq<ApiSource>)

  datatype StatusReport = Single(report: TypeReport) | All(reports: Dict<string, TypeReport>)

  /** The report of every type, in registration order. */
  function AllReports(st: MState, types: seq<string>): (r: Dict<string, TypeReport>)
    ensures |r| == |types|
    ensures forall i :: 0 <= i < |types| ==> r[i] == (types[i], TypeReport(types[i], SourcesOf(st, types[i])))
  {
    seq(|types|, i requires 0 <= i < |types| => (types[i], TypeReport(types[i], SourcesOf(st, types[i]))))
  }

  lemma {:induction false} KeysOfPairs<V>(r: Dict<string, V>, ks: seq<string>)
    requires |r| == |ks| && forall i :: 0 <= i < |ks| ==> r[i].0 == ks[i]
    ensures Keys(r) == ks
  {
    if |r| > 0 {
      KeysOfPairs(r[1..], ks[1..]);
    }
  }

  /**
   * `get_api_status`: a truthy type gives that type's report; no type gives
   * every type's, keyed like `api_sources`. Asking for all while "" is a
   * type recurses without end in the original and raises `RecursionError`.
   */
  function ApiStatus(st: MState, t: string): (r: Result<StatusReport, Exc>)
    ensures t != "" ==> r == Success(Single(TypeReport(t, SourcesOf(st, t))))
    ensures t == "" ==> (r.Success? <==> "" !in Keys(st.sources))
    ensures r.Success? && t == "" ==>
      (r.value.All? && Keys(r.value.reports) == Keys(st.sources)
       && forall i :: 0 <= i < |r.value.reports| ==> r.value.reports[i].1.sources == SourcesOf(st, r.value.reports[i].0))
  {
    if t != "" then Success(Single(TypeReport(t, SourcesOf(st, t))))
    else if "" in Keys(st.sources) then Failure(Other("maximum recursion depth exceeded"))
    else
      var r := AllReports(st, Keys(st.sources));
      KeysOfPairs(r, Keys(st.sources));
      Success(All(r))
  }

  // ----- register_api_sources and reset_all_api_sources -----

  /** `register_api_sources`: `register_api_source` for each source in turn. */
  function RegisteredAll(st: MState, t: string, srcs: seq<ApiSource>): MState {
    if |srcs| == 0 then st
    else Registered(RegisteredAll(st, t, srcs[..|srcs| - 1]), t, srcs[|srcs| - 1])
  }

  /**
   * After registering a batch every URL of it is found for the type, other
   * types are untouched, and URLs stay unique.
   */
  lemma {:induction false} RegisteredAllSpec(st: MState, t: string, srcs: seq<ApiSource>, t': string)
    ensures var after := RegisteredAll(st, t, srcs);
      && (forall i :: 0 <= i < |srcs| ==> SourceAt(after, t, srcs[i].url).Some?)
      && (t' != t ==> SourcesOf(after, t') == SourcesOf(st, t'))
      && (UniqueUrls(SourcesOf(st, t)) ==> UniqueUrls(SourcesOf(after, t)))
      && after.saves == st.saves
  {
    if |srcs| > 0 {
      var init := srcs[..|srcs| - 1];
      var st1 := RegisteredAll(st, t, init);
      var x := srcs[|srcs| - 1];
      RegisteredAllSpec(st, t, init, t');
      RegisteredSpec(st1, t, x, t');
      var s1 := SourcesOf(st1, t);
      forall i | 0 <= i < |srcs|
        ensures SourceAt(Registered(st1, t, x), t, srcs[i].url).Some?
      {
        if i < |srcs| - 1 {
          assert srcs[i] == init[i];
          var j := IndexOf(s1, srcs[i].url);
          assert (s1 + [x])[j] == s1[j];
        }
      }
    }
  }

  /** `reset_api_sources` for each type in turn, adding up the counts. */
  function ResetTypes(st: MState, types: seq<string>): (nat, MState) {
    if |types| == 0 then (0, st)
    else
      var (c, st1) := ResetTypes(st, types[..|types| - 1]);
      var (d, st2) := ResetType(st1, types[|types| - 1]);
      (c + d, st2)
  }

  /** One more type reset. */
  lemma ResetTypesLast(st: MState, types: seq<string>)
    requires |types| > 0
    ensures var prev := ResetTypes(st, types[..|types| - 1]);
      var one := ResetType(prev.1, types[|types| - 1]);
      ResetTypes(st, types) == (prev.0 + one.0, one.1)
  {
  }

  /** `reset_all_api_sources`: every registered type. */
  function ResetAll(st: MState): (nat, MState) {
    ResetTypes(st, Keys(st.sources))
  }

  /** The number of sources of the listed types. */
  function SourceCount(st: MState, types: seq<string>): nat {
    if |types| == 0 then 0 else SourceCount(st, types[..|types| - 1]) + |SourcesOf(st, types[|types| - 1])|
  }

  lemma AllResetTwice(s: seq<ApiSource>)
    ensures AllReset(AllReset(s)) == AllReset(s)
  {
  }

  /** Every type's list has unique URLs: the invariant `register_api_source` keeps. */
  ghost predicate WellFormed(st: MState) {
    forall t :: UniqueUrls(SourcesOf(st, t))
  }

  /** Resetting one type keeps URLs unique and every list's length. */
  lemma ResetTypeWellFormed(st: MState, t: string)
    requires WellFormed(st)
    ensures var after := ResetType(st, t).1;
      WellFormed(after) && forall t' :: |SourcesOf(after, t')| == |SourcesOf(st, t')|
  {
    ResetTypeSpec(st, t);
    var after := ResetType(st, t).1;
    UniqueByUrls(SourcesOf(st, t), SourcesOf(after, t));
  }

  lemma {:induction false} ResetTypesWellFormed(st: MState, types: seq<string>)
    requires WellFormed(st)
    ensures var after := ResetTypes(st, types).1;
      WellFormed(after) && forall t' :: |SourcesOf(after, t')| == |SourcesOf(st, t')|
  {
    if |types| > 0 {
      ResetTypesWellFormed(st, types[..|types| - 1]);
      ResetTypeWellFormed(ResetTypes(st, types[..|types| - 1]).1, types[|types| - 1]);
    }
  }

  /**
   * Resetting a run of types resets every source of each listed type (a
   * repeated type is reset again to the same values), leaves the other
   * types alone and answers the number of sources of the listed types.
   */
  lemma {:induction false} ResetTypesSpec(st: MState, types: seq<string>, t': string)
    requires WellFormed(st)
    ensures var (c, after) := ResetTypes(st, types);
      && c == SourceCount(st, types)
      && SourcesOf(after, t') == (if t' in types then AllReset(SourcesOf(st, t')) else SourcesOf(st, t'))
  {
    if |types| > 0 {
      var init := types[..|types| - 1];
      var last := types[|types| - 1];
      var st1 := ResetTypes(st, init).1;
      ResetTypesSpec(st, init, t');
      ResetTypesSpec(st, init, last);
      ResetTypesWellFormed(st, init);
      ResetTypeSpec(st1, last);
      AllResetTwice(SourcesOf(st, last));
      assert t' in types <==> t' in init || t' == last;
      SourceCountKept(st, st1, init);
    }
  }

  /** A list with the URLs of a unique list is unique. */
  lemma UniqueByUrls(a: seq<ApiSource>, b: seq<ApiSource>)
    requires UniqueUrls(a) && Urls(a) == Urls(b)
    ensures UniqueUrls(b)
  {
    assert |a| == |Urls(a)| == |b|;
    assert forall i :: 0 <= i < |b| ==> b[i].url == Urls(b)[i] == a[i].url;
  }

  lemma {:induction false} SourceCountKept(st: MState, st': MState, types: seq<string>)
    requires forall t :: |SourcesOf(st', t)| == |SourcesOf(st, t)|
    ensures SourceCount(st', types) == SourceCount(st, types)
  {
    if |types| > 0 {
      SourceCountKept(st, st', types[..|types| - 1]);
    }
  }

  /** Changing the source with a URL, in a way that keeps its URL, keeps URLs unique. */
  lemma ReplaceWellFormed(st: MState, t: string, url: string, f: ApiSource -> ApiSource)
    requires WellFormed(st) && KeepsUrl(f)
    ensures WellFormed(Replace(st, t, url, f))
  {
    forall t' | true
      ensures UniqueUrls(SourcesOf(Replace(st, t, url, f), t'))
    {
      ReplaceSources(st, t, url, f, t');
      if t' == t {
        ReplacedSpec(SourcesOf(st, t), url, f, url);
        UniqueByUrls(SourcesOf(st, t), SourcesOf(Replace(st, t, url, f), t));
      }
    }
  }

  /** `register_api_source` keeps URLs unique. */
  lemma RegisteredWellFormed(st: MState, t: string, src: ApiSource)
    requires WellFormed(st)
    ensures WellFormed(Registered(st, t, src))
  {
    forall t' | true
      ensures UniqueUrls(SourcesOf(Registered(st, t, src), t'))
    {
      RegisteredSpec(st, t, src, t');
    }
  }

  /** The operations that change one source keep URLs unique. */
  lemma SetEnabledWellFormed(st: MState, t: string, url: string, b: bool)
    requires WellFormed(st)
    ensures WellFormed(SetEnabled(st, t, url, b).1)
  {
    if SourceAt(st, t, url).Some? {
      ReplaceWellFormed(st, t, url, EnableFn(b));
      WellFormedBySources(Replace(st, t, url, EnableFn(b)), SetEnabled(st, t, url, b).1);
    }
  }

  lemma ResetOneWellFormed(st: MState, t: string, url: string)
    requires WellFormed(st)
    ensures WellFormed(ResetOne(st, t, url).1)
  {
    ResetKeepsUrl();
    if SourceAt(st, t, url).Some? {
      ReplaceWellFormed(st, t, url, ResetSource);
      WellFormedBySources(Replace(st, t, url, ResetSource), ResetOne(st, t, url).1);
    }
  }

  lemma UpdatedWellFormed(st: MState, t: string, url: string, success: bool, now: int, maxRetries: int)
    requires WellFormed(st)
    ensures WellFormed(Updated(st, t, url, success, now, maxRetries))
  {
    if SourceAt(st, t, url).Some? {
      ReplaceWellFormed(st, t, url, RecordFn(success, now, maxRetries));
      WellFormedBySources(Replace(st, t, url, RecordFn(success, now, maxRetries)), Updated(st, t, url, success, now, maxRetries));
    }
  }

  /** Uniqueness of URLs depends on the sources alone. */
  lemma WellFormedBySources(st: MState, st': MState)
    requires WellFormed(st) && st'.sources == st.sources
    ensures WellFormed(st')
  {
    forall t | true
      ensures UniqueUrls(SourcesOf(st', t))
    {
      assert SourcesOf(st', t) == SourcesOf(st, t);
    }
  }
}
