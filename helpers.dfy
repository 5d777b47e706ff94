/**
 * The request helper with its retry and backoff loop, the schedule-time
 * helpers, and the unknown-news-type hint.  `utils/core.py` carries textual
 * copies of the first four; they are modelled once, here.
 */
module Helpers {
  import opened Wrappers
  import opened PyText
  import opened Models
  import opened Exceptions
  import opened Parsers

  /** `config.daily_news_max_retries` and `config.daily_news_timeout` (as text). */
  const DefaultMaxRetries: nat := 3
  const DefaultTimeout: string := "10.0"
  const UserAgent: string := "Mozilla/5.0 (Windows NT 10.0; Win64; x64) AppleWebKit/537.36 (KHTML, like Gecko) Chrome/91.0.4472.124 Safari/537.36"

  /** What one GET attempt comes back with. */
  datatype Outcome =
    | Response(resp: HttpResponse)
    | TimedOut
      /** Any other exception from the client, with its text. */
    | Failed(reason: string)

  /** A recorded `asyncio.sleep`: a server-given number of seconds, or the backoff delay 1.5^k. */
  datatype Sleep = Fixed(seconds: nat) | Backoff(k: nat)

  predicate IsOk(o: Outcome) { o.Response? && o.resp.statusCode == 200 }

  predicate RetryableStatus(code: int) { code in {429, 500, 502, 503, 504} }

  /** `retry_after and retry_after.isdigit()`. */
  predicate NumericRetryAfter(r: HttpResponse) {
    var h := Header(r, "retry-after", "");
    h != "" && AllDigits(h)
  }

  /** A server-paced retry: retryable status with a numeric `Retry-After`. */
  predicate ServerPaced(o: Outcome) {
    o.Response? && o.resp.statusCode != 200 && RetryableStatus(o.resp.statusCode) && NumericRetryAfter(o.resp)
  }

  /** The request headers: the default User-Agent, overridden by the caller's. */
  function RequestHeaders(caller: map<string, string>): (h: map<string, string>)
    ensures h.Keys == caller.Keys + {"User-Agent"}
    ensures forall k :: k in caller ==> h[k] == caller[k]
    ensures "User-Agent" !in caller ==> h["User-Agent"] == UserAgent
  {
    map["User-Agent" := UserAgent] + caller
  }

  /** `max_retries or config.daily_news_max_retries`. */
  function EffectiveRetries(maxRetries: int): int {
    if maxRetries != 0 then maxRetries else DefaultMaxRetries
  }

  /** `timeout or config.daily_news_timeout`, as text. */
  function EffectiveTimeout(timeout: string): string {
    if timeout != "" then timeout else DefaultTimeout
  }

  /** How many GETs `while retries <= max_retries` allows. */
  function AttemptBudget(retries: int): nat {
    if retries >= 0 then retries + 1 else 0
  }

  /** The error a failed attempt leaves in `last_error`. */
  function AttemptError(url: string, timeout: string, o: Outcome): Exc
    requires !IsOk(o)
  {
    match o
    case Response(r) =>
      if RetryableStatus(r.statusCode) then Api("API请求失败", r.statusCode, url)
      // raised inside the `try` and caught by the generic handler
      else Api("API请求失败: " + ApiMessage("API请求失败", r.statusCode, url), 0, url)
    case TimedOut => ApiTimeout("API请求超时", url, timeout)
    case Failed(reason) => Api("API请求失败: " + reason, 0, url)
  }

  /** The sleep after a failed attempt, given how often the delay has grown so far. */
  function SleepAfter(o: Outcome, grown: nat): Sleep {
    if ServerPaced(o) then Fixed(RunValue(Header(o.resp, "retry-after", ""))) else Backoff(grown)
  }

  /** How often the backoff delay has grown after the first n attempts. */
  function Grown(script: nat -> Outcome, n: nat): nat {
    if n == 0 then 0 else Grown(script, n - 1) + (if ServerPaced(script(n - 1)) then 0 else 1)
  }

  /** The sleeps after the first n attempts, all of them failed. */
  function Sleeps(script: nat -> Outcome, n: nat): seq<Sleep> {
    if n == 0 then [] else Sleeps(script, n - 1) + [SleepAfter(script(n - 1), Grown(script, n - 1))]
  }

  /**
   * `fetch_with_retry`: the attempts are read from `script`; `attempts` is
   * the number of GETs made and `sleeps` what was slept between them.
   */
  method FetchWithRetry(url: string, maxRetries: int, timeout: string, script: nat -> Outcome)
    returns (result: Result<HttpResponse, Exc>, attempts: nat, sleeps: seq<Sleep>)
    ensures attempts <= AttemptBudget(EffectiveRetries(maxRetries))
    ensures forall i :: 0 <= i < attempts - 1 ==> !IsOk(script(i))
    ensures result.Success? <==> exists i :: 0 <= i < AttemptBudget(EffectiveRetries(maxRetries)) && IsOk(script(i))
    ensures result.Success? ==> 1 <= attempts && IsOk(script(attempts - 1)) && result.value == script(attempts - 1).resp
    ensures result.Success? ==> sleeps == Sleeps(script, attempts - 1)
    ensures result.Failure? ==>
      && attempts == AttemptBudget(EffectiveRetries(maxRetries))
      && sleeps == Sleeps(script, attempts)
      && (attempts > 0 ==>
            !IsOk(script(attempts - 1)) && result.error == AttemptError(url, EffectiveTimeout(timeout), script(attempts - 1)))
      && (attempts == 0 ==> result.error == Api("请求失败，已重试" + IntToStr(EffectiveRetries(maxRetries)) + "次", 0, url))
  {
    var retries := EffectiveRetries(maxRetries);
    var timeoutText := EffectiveTimeout(timeout);
    var count: nat := 0;
    var grown: nat := 0;
    var lastError: Option<Exc> := None;
    sleeps := [];
    while count <= retries
      decreases retries - count
      invariant count <= AttemptBudget(retries)
      invariant forall i :: 0 <= i < count ==> !IsOk(script(i))
      invariant sleeps == Sleeps(script, count) && grown == Grown(script, count)
      invariant count == 0 <==> lastError.None?
      invariant count > 0 ==> lastError == Some(AttemptError(url, timeoutText, script(count - 1)))
    {
      var o := script(count);
      if IsOk(o) {
        return Success(o.resp), count + 1, sleeps;
      }
      assert Sleeps(script, count + 1) == sleeps + [SleepAfter(o, grown)];
      assert Grown(script, count + 1) == grown + (if ServerPaced(o) then 0 else 1);
      var err, pause;
      err, pause, grown := FailedAttempt(url, timeoutText, o, grown);
      lastError := Some(err);
      sleeps := sleeps + [pause];
      count := count + 1;
    }
    attempts := count;
    result := Failure(lastError.GetOr(Api("请求失败，已重试" + IntToStr(retries) + "次", 0, url)));
  }

  /** One failed pass of the retry loop: the error it leaves, what it sleeps, and the grown delay. */
  method FailedAttempt(url: string, timeout: string, o: Outcome, grown: nat)
    returns (err: Exc, pause: Sleep, grown': nat)
    requires !IsOk(o)
    ensures err == AttemptError(url, timeout, o)
    ensures pause == SleepAfter(o, grown)
    ensures grown' == grown + (if ServerPaced(o) then 0 else 1)
  {
    grown' := grown + 1;
    match o {
    case Response(r) =>
      err := AttemptError(url, timeout, o);
      if RetryableStatus(r.statusCode) && NumericRetryAfter(r) {
        pause := Fixed(RunValue(Header(r, "retry-after", "")));
        grown' := grown;
      } else {
        pause := Backoff(grown);
      }
    case TimedOut =>
      err := ApiTimeout("API请求超时", url, timeout);
      pause := Backoff(grown);
    case Failed(reason) =>
      err := Api("API请求失败: " + reason, 0, url);
      pause := Backoff(grown);
    }
  }

  /**
   * A server-given `Retry-After` is slept as is and leaves the delay alone;
   * every other failure sleeps the current delay, which then grows, so the
   * k-th backoff sleep is 1.5^k seconds.
   */
  lemma {:induction false} SleepsSpec(script: nat -> Outcome, n: nat)
    ensures |Sleeps(script, n)| == n
    ensures forall i {:trigger Sleeps(script, n)[i]} :: 0 <= i < n ==> (Sleeps(script, n)[i].Fixed? <==> ServerPaced(script(i)))
    ensures forall i {:trigger Sleeps(script, n)[i]} :: 0 <= i < n && Sleeps(script, n)[i].Backoff? ==> Sleeps(script, n)[i].k == Grown(script, i)
    ensures Grown(script, n) <= n
  {
    if n > 0 {
      SleepsSpec(script, n - 1);
      var prev := Sleeps(script, n - 1);
      var last := SleepAfter(script(n - 1), Grown(script, n - 1));
      var all := Sleeps(script, n);
      assert all == prev + [last];
      assert Grown(script, n) <= Grown(script, n - 1) + 1;
      forall i | 0 <= i < n
        ensures all[i].Fixed? <==> ServerPaced(script(i))
        ensures all[i].Backoff? ==> all[i].k == Grown(script, i)
      {
        if i < n - 1 {
          assert all[i] == prev[i];
        } else {
          assert all[i] == last;
        }
      }
    }
  }

  /** Backoff sleeps grow by one step at a time and never skip or repeat a delay. */
  lemma {:induction false} BackoffIncreasing(script: nat -> Outcome, i: nat, j: nat)
    requires i < j
    requires !ServerPaced(script(i))
    ensures Grown(script, i) < Grown(script, j)
    decreases j
  {
    if j > i + 1 {
      BackoffIncreasing(script, i, j - 1);
    }
  }

  /** A non-retryable status is still retried: it fails its attempt and sleeps the backoff delay. */
  lemma NonRetryableRetried(url: string, timeout: string, o: Outcome, grown: nat)
    requires o.Response? && o.resp.statusCode != 200 && !RetryableStatus(o.resp.statusCode)
    ensures !IsOk(o)
    ensures AttemptError(url, timeout, o).Api? && AttemptError(url, timeout, o).statusCode == 0
    ensures SleepAfter(o, grown) == Backoff(grown)
  {
  }

  // ----- schedule times -----

  const TimeError: string := "无效的时间格式"

  /**
   * `parse_time`: `H:M`, `HHMM` or `HMM`; anything else is an invalid time.
   * The only error is the invalid-time one, carrying the input; a colon form
   * with other than one colon, and a colon-free form of other than 3 or 4
   * characters, are always rejected.
   */
  function ParseTime(s: string): (r: Result<(int, int), Exc>)
    ensures r.Failure? ==> r.error == InvalidTimeFormat(TimeError, s)
    ensures r.Success? ==> (':' in s && |Split(s, ':')| == 2) || (':' !in s && (|s| == 3 || |s| == 4))
  {
    var invalid := Failure(InvalidTimeFormat(TimeError, s));
    if ':' in s then
      var parts := Split(s, ':');
      if |parts| != 2 then invalid
      else ParsePair(PyInt(parts[0]), PyInt(parts[1]), s)
    else if |s| == 4 then ParsePair(PyInt(s[..2]), PyInt(s[2..]), s)
    else if |s| == 3 then ParsePair(PyInt(s[..1]), PyInt(s[1..]), s)
    else invalid
  }

  function ParsePair(h: Option<int>, m: Option<int>, s: string): Result<(int, int), Exc> {
    if h.Some? && m.Some? then Success((h.value, m.value)) else Failure(InvalidTimeFormat(TimeError, s))
  }

  predicate ValidTime(hour: int, minute: int) { 0 <= hour < 24 && 0 <= minute < 60 }

  /** `format_time`: `HH:MM`, zero-padded; a valid time is two digits each side of the colon. */
  function FormatTime(hour: int, minute: int): (t: string)
    ensures ValidTime(hour, minute) ==> |t| == 5 && t[2] == ':' && AllDigits(t[..2]) && AllDigits(t[3..])
  {
    var t := Pad2(hour) + ":" + Pad2(minute);
    if ValidTime(hour, minute) then
      Pad2OfSmall(hour);
      Pad2OfSmall(minute);
      assert t[..2] == Pad2(hour) && t[3..] == Pad2(minute);
      t
    else t
  }

  /** For a valid time, parsing its formatted text gives it back. */
  lemma ParseFormatRoundTrip(hour: int, minute: int)
    requires ValidTime(hour, minute)
    ensures ParseTime(FormatTime(hour, minute)) == Success((hour, minute))
  {
    Pad2OfSmall(hour);
    Pad2OfSmall(minute);
    Pad2RoundTrip(hour);
    Pad2RoundTrip(minute);
    ParseJoined(Pad2(hour), Pad2(minute), hour, minute);
  }

  /** Two digit pairs joined by a colon parse as the two numbers they spell. */
  lemma ParseJoined(h: string, m: string, a: int, b: int)
    requires |h| == 2 && AllDigits(h) && PyInt(h) == Some(a)
    requires |m| == 2 && AllDigits(m) && PyInt(m) == Some(b)
    ensures ParseTime(h + ":" + m) == Success((a, b))
  {
    assert ':' !in h;
    assert ':' !in m;
    var t := h + ":" + m;
    assert t == h + [':'] + m;
    assert ':' in t by {
      assert t[2] == ':';
    }
    SplitAt(h, ':', m);
    SplitNone(m, ':');
  }

  // ----- the unknown-type hint -----

  /** The sources with distinct names, each name's first registration, in order. */
  function UniqueByName(sources: seq<NewsSource>): seq<NewsSource> {
    if |sources| == 0 then []
    else
      var prior := UniqueByName(sources[..|sources| - 1]);
      var s := sources[|sources| - 1];
      if exists u :: u in prior && u.name == s.name then prior else prior + [s]
  }

  function HintLine(s: NewsSource): string {
    "▶ " + s.name + (if |s.aliases| > 0 then "（别名：" + Join(s.aliases, ", ") + "）" else "") + "\n"
  }

  function HintLines(sources: seq<NewsSource>): string {
    if |sources| == 0 then "" else HintLines(sources[..|sources| - 1]) + HintLine(sources[|sources| - 1])
  }

  function NewsTypeError(invalidType: string, sources: seq<NewsSource>): string {
    "未知的日报类型: " + invalidType + "\n\n【可用的日报类型】\n" + HintLines(UniqueByName(sources))
  }

  /**
   * `generate_news_type_error`: `registry` is `news_sources.items()` in order;
   * one line per distinct source name, keyed by the first source seen.
   */
  method GenerateNewsTypeError(invalidType: string, registry: seq<(string, NewsSource)>) returns (msg: string)
    ensures msg == NewsTypeError(invalidType, seq(|registry|, i requires 0 <= i < |registry| => registry[i].1))
  {
    var sources := seq(|registry|, i requires 0 <= i < |registry| => registry[i].1);
    var unique := UniqueSources(sources);
    var lines := JoinHintLines(unique);
    msg := "未知的日报类型: " + invalidType + "\n\n【可用的日报类型】\n" + lines;
  }

  /** The first loop of `generate_news_type_error`: the set of names seen so far decides. */
  method UniqueSources(sources: seq<NewsSource>) returns (unique: seq<NewsSource>)
    ensures unique == UniqueByName(sources)
  {
    unique := [];
    var names: set<string> := {};
    for i := 0 to |sources|
      invariant unique == UniqueByName(sources[..i])
      invariant names == set u | u in unique :: u.name
    {
      assert sources[..i + 1][..i] == sources[..i];
      if sources[i].name !in names {
        unique := unique + [sources[i]];
        names := names + {sources[i].name};
      }
    }
    assert sources[..|sources|] == sources;
  }

  /** The second loop: one hint line per unique source, in order. */
  method JoinHintLines(unique: seq<NewsSource>) returns (lines: string)
    ensures lines == HintLines(unique)
  {
    lines := "";
    for j := 0 to |unique|
      invariant lines == HintLines(unique[..j])
    {
      assert unique[..j + 1][..j] == unique[..j];
      lines := lines + HintLine(unique[j]);
    }
    assert unique[..|unique|] == unique;
  }

  predicate DistinctNames(u: seq<NewsSource>) {
    forall i, j :: 0 <= i < j < |u| ==> u[i].name != u[j].name
  }

  lemma {:induction false} UniqueNamesDistinct(sources: seq<NewsSource>)
    ensures DistinctNames(UniqueByName(sources))
  {
    if |sources| > 0 {
      var prior := UniqueByName(sources[..|sources| - 1]);
      UniqueNamesDistinct(sources[..|sources| - 1]);
      var s := sources[|sources| - 1];
      if !exists u :: u in prior && u.name == s.name {
        var u := prior + [s];
        assert UniqueByName(sources) == u;
        forall i, j | 0 <= i < j < |u|
          ensures u[i].name != u[j].name
        {
          if j == |prior| {
            assert u[j] == s;
            assert u[i] == prior[i] && prior[i] in prior;
            assert prior[i].name != s.name;
          } else {
            assert u[i] == prior[i] && u[j] == prior[j];
            assert prior[i].name != prior[j].name;
          }
        }
      }
    }
  }

  lemma {:induction false} UniqueNamesCover(sources: seq<NewsSource>)
    ensures var u := UniqueByName(sources);
      forall s :: s in sources ==> exists v :: v in u && v.name == s.name
  {
    if |sources| > 0 {
      var init := sources[..|sources| - 1];
      UniqueNamesCover(init);
      var prior := UniqueByName(init);
      var last := sources[|sources| - 1];
      assert sources == init + [last];
      forall s | s in sources
        ensures exists v :: v in UniqueByName(sources) && v.name == s.name
      {
        if s in init {
          var v :| v in prior && v.name == s.name;
          assert v in UniqueByName(sources);
        } else {
          assert s == last;
          if exists u :: u in prior && u.name == s.name {
          } else {
            assert s in UniqueByName(sources);
          }
        }
      }
    }
  }

  lemma {:induction false} UniqueNamesFirst(sources: seq<NewsSource>)
    ensures var u := UniqueByName(sources);
      forall v :: v in u ==> FirstNamed(sources, v)
  {
    if |sources| > 0 {
      var init := sources[..|sources| - 1];
      UniqueNamesFirst(init);
      var u := UniqueByName(sources);
      forall v | v in u
        ensures FirstNamed(sources, v)
      {
        if v in UniqueByName(init) {
          assert FirstNamed(init, v);
          var i :| 0 <= i < |init| && init[i] == v && forall k :: 0 <= k < i ==> init[k].name != v.name;
          assert sources[i] == v;
          assert forall k :: 0 <= k < i ==> sources[k] == init[k];
        } else {
          UniqueNamesCover(init);
          assert v == sources[|sources| - 1];
          assert forall k :: 0 <= k < |init| ==> init[k] == sources[k];
          assert FirstNamed(sources, v) by {
            var last := |sources| - 1;
            forall k | 0 <= k < last
              ensures sources[k].name != v.name
            {
              assert init[k] in init;
            }
          }
        }
      }
    }
  }

  /** `v` is the first source registered under its name. */
  predicate FirstNamed(sources: seq<NewsSource>, v: NewsSource) {
    exists i :: 0 <= i < |sources| && sources[i] == v && forall k :: 0 <= k < i ==> sources[k].name != v.name
  }

  /** The listed sources have distinct names, cover every name, and each is the first registered under it. */
  lemma UniqueByNameSpec(sources: seq<NewsSource>)
    ensures var u := UniqueByName(sources);
      && DistinctNames(u)
      && (forall s :: s in sources ==> exists v :: v in u && v.name == s.name)
      && (forall v :: v in u ==> FirstNamed(sources, v))
  {
    UniqueNamesDistinct(sources);
    UniqueNamesCover(sources);
    UniqueNamesFirst(sources);
  }
}
