/**
 * The plugin's error taxonomy: one constructor per exception class, carrying
 * the constructor's arguments, the message each constructor composes, and the
 * subclass relation that decides which `except` clause catches what.
 *
 * Optional arguments are modelled by their falsy value: a status code or group
 * id of 0 and an empty string stand for both `None` and the falsy value, since
 * the constructors only ever test them for truthiness.
 */
module Exceptions {
  import opened Wrappers
  import opened PyText

  datatype Exc =
    | Report(message: string)
    | Api(message: string, statusCode: int, apiUrl: string)
      /** `timeout` is the text of the float, "" when it is absent or zero. */
    | ApiTimeout(message: string, apiUrl: string, timeout: string)
    | ApiParse(message: string, apiUrl: string, parser: string)
    | NoAvailable(message: string, newsType: string)
    | NewsTypeNotFound(message: string, newsType: string, availableTypes: seq<string>)
    | Schedule(message: string, groupId: int, newsType: string)
    | InvalidTimeFormat(message: string, timeStr: string)
    | Cache(message: string, newsType: string, formatType: string)
    | FormatType(message: string, formatType: string, supportedFormats: seq<string>)
      /** Python's built-in `TypeError`, outside the plugin's hierarchy. */
    | TypeError(message: string)
      /** Any other built-in exception. */
    | Other(message: string)

  datatype ExcClass =
    | ReportException | APIException | APITimeoutException | APIResponseParseException
    | NoAvailableAPIException | NewsTypeNotFoundException | ScheduleException
    | InvalidTimeFormatException | CacheException | FormatTypeException
    | TypeErrorClass | ExceptionClass

  function ClassOf(e: Exc): ExcClass {
    match e
    case Report(_) => ReportException
    case Api(_, _, _) => APIException
    case ApiTimeout(_, _, _) => APITimeoutException
    case ApiParse(_, _, _) => APIResponseParseException
    case NoAvailable(_, _) => NoAvailableAPIException
    case NewsTypeNotFound(_, _, _) => NewsTypeNotFoundException
    case Schedule(_, _, _) => ScheduleException
    case InvalidTimeFormat(_, _) => InvalidTimeFormatException
    case Cache(_, _, _) => CacheException
    case FormatType(_, _, _) => FormatTypeException
    case TypeError(_) => TypeErrorClass
    case Other(_) => ExceptionClass
  }

  /** The base class each class declares; `Exception` itself has none. */
  function Base(c: ExcClass): Option<ExcClass> {
    match c
    case ExceptionClass => None
    case ReportException => Some(ExceptionClass)
    case TypeErrorClass => Some(ExceptionClass)
    case APIException => Some(ReportException)
    case APITimeoutException => Some(APIException)
    case APIResponseParseException => Some(APIException)
    case NoAvailableAPIException => Some(APIException)
    case NewsTypeNotFoundException => Some(ReportException)
    case ScheduleException => Some(ReportException)
    case InvalidTimeFormatException => Some(ScheduleException)
    case CacheException => Some(ReportException)
    case FormatTypeException => Some(ReportException)
  }

  /** How many bases lie between a class and `Exception`. */
  function Depth(c: ExcClass): nat {
    match c
    case ExceptionClass => 0
    case ReportException | TypeErrorClass => 1
    case APIException | NewsTypeNotFoundException | ScheduleException | CacheException | FormatTypeException => 2
    case APITimeoutException | APIResponseParseException | NoAvailableAPIException | InvalidTimeFormatException => 3
  }

  /** `issubclass(c, d)`: d is c or one of its bases, transitively. */
  predicate IsSubclass(c: ExcClass, d: ExcClass)
    decreases Depth(c)
  {
    c == d || (Base(c).Some? && IsSubclass(Base(c).value, d))
  }

  /** `except d` catches e. */
  predicate Catches(d: ExcClass, e: Exc) { IsSubclass(ClassOf(e), d) }

  /** Whether a Python value used as an optional argument is truthy. */
  predicate Given(s: string) { s != "" }

  function SuffixIf(cond: bool, text: string): string { if cond then text else "" }

  /** The message `APIException.__init__` composes. */
  function ApiMessage(message: string, statusCode: int, apiUrl: string): string {
    message
      + SuffixIf(statusCode != 0, "，状态码: " + IntToStr(statusCode))
      + SuffixIf(Given(apiUrl), "，URL: " + apiUrl)
  }

  /** The message `str(e)` shows, as each constructor composes it. */
  function ErrorMessage(e: Exc): string {
    match e
    case Report(m) => m
    case Api(m, c, u) => ApiMessage(m, c, u)
    case ApiTimeout(m, u, t) => ApiMessage(m + SuffixIf(Given(t), "，超时时间: " + t + "秒"), 0, u)
    case ApiParse(m, u, p) => ApiMessage(m + SuffixIf(Given(p), "，解析器: " + p), 0, u)
    case NoAvailable(m, t) => ApiMessage(m + SuffixIf(Given(t), "，日报类型: " + t), 0, "")
    case NewsTypeNotFound(m, t, avail) =>
      m + SuffixIf(Given(t), ": " + t) + SuffixIf(|avail| > 0, "，可用类型: " + Join(avail, ", "))
    case Schedule(m, g, t) => ScheduleMessage(m, g, t)
    case InvalidTimeFormat(m, s) => ScheduleMessage(m + SuffixIf(Given(s), ": " + s), 0, "")
    case Cache(m, t, f) => m + SuffixIf(Given(t), "，日报类型: " + t) + SuffixIf(Given(f), "，格式: " + f)
    case FormatType(m, f, fs) =>
      m + SuffixIf(Given(f), ": " + f) + SuffixIf(|fs| > 0, "，支持的格式: " + Join(fs, ", "))
    case TypeError(m) => m
    case Other(m) => m
  }

  function ScheduleMessage(message: string, groupId: int, newsType: string): string {
    message + SuffixIf(groupId != 0, "，群组: " + IntToStr(groupId))
      + SuffixIf(Given(newsType), "，日报类型: " + newsType)
  }

  /** The status code an exception exposes; only `APIException` itself sets one. */
  function StatusCodeOf(e: Exc): int {
    if e.Api? then e.statusCode else 0
  }

  // ----- the subclass relation behind the `except` clauses -----

  /** `except APIException` catches exactly the four API classes. */
  lemma CatchesApi(e: Exc)
    ensures Catches(APIException, e) <==> (e.Api? || e.ApiTimeout? || e.ApiParse? || e.NoAvailable?)
  {
  }

  /** `except ScheduleException` catches exactly it and the invalid-time error. */
  lemma CatchesSchedule(e: Exc)
    ensures Catches(ScheduleException, e) <==> (e.Schedule? || e.InvalidTimeFormat?)
  {
  }

  /** Every plugin error is a `ReportException`; the built-ins are not. */
  lemma CatchesReport(e: Exc)
    ensures Catches(ReportException, e) <==> !(e.TypeError? || e.Other?)
  {
  }

  /** `except Exception` catches everything. */
  lemma CatchesEverything(e: Exc)
    ensures Catches(ExceptionClass, e)
  {
  }

  /** The subclass relation is transitive, so a handler for a base catches the subclasses' subclasses. */
  lemma {:induction false} SubclassTransitive(a: ExcClass, b: ExcClass, c: ExcClass)
    requires IsSubclass(a, b) && IsSubclass(b, c)
    ensures IsSubclass(a, c)
    decreases Depth(a)
  {
    if a != b {
      SubclassTransitive(Base(a).value, b, c);
    }
  }

  // ----- message composition -----

  /** The status suffix precedes the URL suffix, and each appears exactly when its argument is truthy. */
  lemma ApiMessageSuffixes(m: string, code: int, url: string)
    ensures var msg := ApiMessage(m, code, url);
      && StartsWith(msg, m)
      && (code == 0 && url == "" <==> msg == m)
      && (code != 0 && url == "" ==> msg == m + "，状态码: " + IntToStr(code))
      && (code == 0 && url != "" ==> msg == m + "，URL: " + url)
      && (code != 0 && url != "" ==> msg == m + "，状态码: " + IntToStr(code) + "，URL: " + url)
  {
    SuffixesAfter(m, "，状态码: " + IntToStr(code), "，URL: " + url, code != 0, url != "");
  }

  /** Two optional non-empty suffixes: the text starts with the message and is longer exactly when one is there. */
  lemma SuffixesAfter(m: string, a: string, b: string, ca: bool, cb: bool)
    requires |a| > 0 && |b| > 0
    ensures var msg := m + SuffixIf(ca, a) + SuffixIf(cb, b);
      StartsWith(msg, m) && (!ca && !cb <==> msg == m)
  {
    var msg := m + SuffixIf(ca, a) + SuffixIf(cb, b);
    assert msg[..|m|] == m;
    assert |msg| == |m| + |SuffixIf(ca, a)| + |SuffixIf(cb, b)|;
  }

  /** A timeout error is an API error that never carries a status code. */
  lemma TimeoutHasNoStatus(m: string, url: string, t: string)
    ensures StatusCodeOf(ApiTimeout(m, url, t)) == 0
    ensures ErrorMessage(ApiTimeout(m, url, t)) == ApiMessage(m + SuffixIf(t != "", "，超时时间: " + t + "秒"), 0, url)
  {
  }

  /** The parser suffix comes before the URL suffix. */
  lemma ParseSuffixOrder(m: string, url: string, p: string)
    requires p != "" && url != ""
    ensures ErrorMessage(ApiParse(m, url, p)) == m + "，解析器: " + p + "，URL: " + url
  {
  }

  /** The no-source error carries only the news-type suffix: no status, no URL. */
  lemma NoAvailableOnlyType(m: string, t: string)
    ensures ErrorMessage(NoAvailable(m, t)) == if t == "" then m else m + "，日报类型: " + t
  {
  }

  /** An invalid-time error adds its time text and neither schedule suffix. */
  lemma InvalidTimeMessage(m: string, s: string)
    ensures ErrorMessage(InvalidTimeFormat(m, s)) == if s == "" then m else m + ": " + s
    ensures Catches(ScheduleException, InvalidTimeFormat(m, s))
  {
  }

  /** The schedule suffixes appear only for a truthy group id and type, group first. */
  lemma ScheduleSuffixes(m: string, g: int, t: string)
    ensures g == 0 && t == "" ==> ErrorMessage(Schedule(m, g, t)) == m
    ensures g != 0 && t != "" ==> ErrorMessage(Schedule(m, g, t)) == m + "，群组: " + IntToStr(g) + "，日报类型: " + t
    ensures g == 0 && t != "" ==> ErrorMessage(Schedule(m, g, t)) == m + "，日报类型: " + t
    ensures g != 0 && t == "" ==> ErrorMessage(Schedule(m, g, t)) == m + "，群组: " + IntToStr(g)
  {
    var group := SuffixIf(g != 0, "，群组: " + IntToStr(g));
    var kind := SuffixIf(Given(t), "，日报类型: " + t);
    assert ErrorMessage(Schedule(m, g, t)) == m + group + kind;
    if g == 0 {
      assert m + group == m;
    }
    if t == "" {
      assert m + group + kind == m + group;
    }
  }
}
