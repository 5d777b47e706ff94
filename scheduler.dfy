/**
 * utils/scheduler.py: the `Store` that keeps the schedule table in
 * `schedules.json`, with the cleaning its loader applies, and the
 * `ScheduleManager` bookkeeping around the job scheduler. The scheduler is
 * reduced to the set of job ids it holds; the jobs it lists are an input.
 */
module Scheduler {
  import opened Wrappers
  import opened PyText
  import opened JsonValue
  import opened Exceptions
  import opened Dicts
  import opened Schedules
  import opened Helpers

  // ----- cleaning the loaded file (`Store._load_data`) -----

  /** `isinstance(schedule, dict) and "schedule_time" in schedule`. */
  predicate Loadable(schedule: Json) {
    schedule.JObj? && HasKey(schedule.fields, "schedule_time")
  }

  /** A group's dict with only its loadable schedules, in order. */
  function CleanGroup(g: Group): Group {
    if |g| == 0 then []
    else
      var rest := CleanGroup(g[..|g| - 1]);
      if Loadable(g[|g| - 1].1) then rest + [g[|g| - 1]] else rest
  }

  /** The cleaned group a loaded group value gives, if it is a dict that keeps a schedule. */
  function CleanValue(v: Json): Option<Group> {
    if v.JObj? && |CleanGroup(FromPairs(v.fields))| > 0 then Some(CleanGroup(FromPairs(v.fields))) else None
  }

  /** The loaded top-level dict with non-dict groups and groups left empty dropped. */
  function CleanGroups(d: Dict<string, Json>): Table {
    if |d| == 0 then []
    else
      var rest := CleanGroups(d[..|d| - 1]);
      match CleanValue(d[|d| - 1].1)
      case Some(cg) => rest + [(d[|d| - 1].0, cg)]
      case None => rest
  }

  /** What `_load_data` returns for a decoded file; a non-dict top level gives `{}`. */
  function Cleaned(raw: Json): Table {
    if raw.JObj? then CleanGroups(FromPairs(raw.fields)) else []
  }

  /** The schedule the decoded file holds for (group, type), if it is one cleaning keeps. */
  function RawSchedule(raw: Json, g: string, t: string): Option<Json> {
    if !raw.JObj? then None
    else
      match Find(FromPairs(raw.fields), g)
      case Some(v) =>
        if v.JObj? then
          match Find(FromPairs(v.fields), t)
          case Some(s) => if Loadable(s) then Some(s) else None
          case None => None
        else None
      case None => None
  }

  lemma {:induction false} CleanGroupFind(g: Group, t: string)
    requires Distinct(g)
    ensures Find(CleanGroup(g), t) == if Find(g, t).Some? && Loadable(Find(g, t).value) then Find(g, t) else None
    ensures Distinct(CleanGroup(g))
    decreases |g|
  {
    if |g| > 0 {
      var init, last := g[..|g| - 1], g[|g| - 1];
      DistinctInit(g);
      CleanGroupFind(init, t);
      CleanGroupFind(init, last.0);
      assert g == init + [last];
      FindAppend(init, last, t);
      FindAppend(init, last, last.0);
      if Loadable(last.1) {
        FindAppend(CleanGroup(init), last, t);
        DistinctAppend(CleanGroup(init), last);
      }
    }
  }

  lemma {:induction false} CleanGroupsFind(d: Dict<string, Json>, k: string)
    requires Distinct(d)
    ensures Find(CleanGroups(d), k) == match Find(d, k) case Some(v) => CleanValue(v) case None => None
    ensures Distinct(CleanGroups(d)) && NoEmptyGroups(CleanGroups(d))
    decreases |d|
  {
    if |d| > 0 {
      var init, last := d[..|d| - 1], d[|d| - 1];
      DistinctInit(d);
      CleanGroupsFind(init, k);
      CleanGroupsFind(init, last.0);
      assert d == init + [last];
      FindAppend(init, last, k);
      FindAppend(init, last, last.0);
      match CleanValue(last.1) {
        case Some(cg) =>
          FindAppend(CleanGroups(init), (last.0, cg), k);
          DistinctAppend(CleanGroups(init), (last.0, cg));
        case None =>
      }
    }
  }

  /**
   * The cleaned table keeps exactly the loadable schedules of the file, has
   * no repeated key and no empty group.
   */
  lemma CleanedSpec(raw: Json, g: string, t: string)
    ensures Scheduled(Cleaned(raw), g, t) == RawSchedule(raw, g, t)
    ensures Distinct(Cleaned(raw)) && NoEmptyGroups(Cleaned(raw))
  {
    if raw.JObj? {
      var d := FromPairs(raw.fields);
      FromPairsDistinct(raw.fields);
      CleanGroupsFind(d, g);
      match Find(d, g) {
        case Some(v) =>
          if v.JObj? {
            FromPairsDistinct(v.fields);
            CleanGroupFind(FromPairs(v.fields), t);
          }
        case None =>
      }
    }
  }

  /** The inner loop of `_load_data`: one group's schedules that pass the check. */
  method CleanSchedules(schedules: Group) returns (cleanedGroup: Group)
    ensures cleanedGroup == CleanGroup(schedules)
  {
    cleanedGroup := [];
    for j := 0 to |schedules|
      invariant cleanedGroup == CleanGroup(schedules[..j])
    {
      assert schedules[..j + 1][..j] == schedules[..j];
      var (newsType, schedule) := schedules[j];
      // the keys of `schedules` are unique, so this assignment appends
      if Loadable(schedule) {
        cleanedGroup := cleanedGroup + [(newsType, schedule)];
      }
    }
    assert schedules[..|schedules|] == schedules;
  }

  /** The outer loop of `_load_data` over the decoded file. */
  method CleanLoaded(raw: Json) returns (cleaned: Table)
    ensures cleaned == Cleaned(raw)
  {
    if !raw.JObj? {
      return [];
    }
    var data := FromPairs(raw.fields);
    cleaned := [];
    for i := 0 to |data|
      invariant cleaned == CleanGroups(data[..i])
    {
      assert data[..i + 1][..i] == data[..i];
      var (groupId, groupSchedules) := data[i];
      if groupSchedules.JObj? {
        var cleanedGroup := CleanSchedules(FromPairs(groupSchedules.fields));
        assert CleanValue(groupSchedules) == if |cleanedGroup| > 0 then Some(cleanedGroup) else None;
        if |cleanedGroup| > 0 {
          cleaned := cleaned + [(groupId, cleanedGroup)];
        }
      } else {
        assert CleanValue(groupSchedules) == None;
      }
      assert cleaned == CleanGroups(data[..i + 1]);
    }
    assert data[..|data|] == data;
  }

  // ----- the store -----

  /** What opening `schedules.json` gave. */
  datatype StoreFile =
    | NoFile
    | BadJson
    | ReadError
    | Parsed(raw: Json)

  /** `Store`; `saved` is the sequence of tables written to the file, writing taken to succeed. */
  class Store {
    var data: Table
    var saved: seq<Table>

    ghost predicate Valid()
      reads this
    {
      Distinct(data) && NoEmptyGroups(data)
    }

    /** `__init__` / `_load_data`: a missing or corrupt file is (re)written as `{}`. */
    constructor (file: StoreFile)
      ensures Valid()
      ensures data == if file.Parsed? then Cleaned(file.raw) else []
      ensures saved == if file.NoFile? || file.BadJson? then [[]] else []
    {
      var loaded: Table := [];
      if file.Parsed? {
        loaded := CleanLoaded(file.raw);
        CleanedSpec(file.raw, "", "");
      }
      data := loaded;
      saved := if file.NoFile? || file.BadJson? then [[]] else [];
    }

    method SaveData() returns (ok: bool)
      modifies this
      ensures data == old(data) && saved == old(saved) + [data] && ok
    {
      saved := saved + [data];
      ok := true;
    }

    function GetGroupSchedule(groupId: int, newsType: string): (r: Option<Json>)
      reads this
      ensures r == Find(GetGroupSchedules(groupId), newsType)
      ensures r.Some? ==> IntToStr(groupId) in Keys(data) && newsType in Keys(GetGroupSchedules(groupId))
    {
      Scheduled(data, IntToStr(groupId), newsType)
    }

    function GetGroupSchedules(groupId: int): (g: Group)
      reads this
      ensures IntToStr(groupId) in Keys(data) ==> Some(g) == Find(data, IntToStr(groupId))
      ensures IntToStr(groupId) !in Keys(data) ==> g == []
    {
      GroupSchedules(data, IntToStr(groupId))
    }

    method GetAllGroupsByNewsType(newsType: string) returns (groups: seq<string>)
      ensures groups == GroupsWith(data, newsType)
    {
      groups := CollectGroups(data, newsType);
    }

    /** `set_group_schedule`. */
    method SetGroupSchedule(groupId: int, newsType: string, scheduleTime: string, formatType: string)
      returns (ok: bool)
      requires Valid()
      modifies this
      ensures Valid()
      ensures data == SetSchedule(old(data), IntToStr(groupId), newsType, scheduleTime, formatType)
      ensures saved == old(saved) + [data] && ok
    {
      var g := IntToStr(groupId);
      SetScheduleKeeps(data, g, newsType, scheduleTime, formatType);
      data := SetSchedule(data, g, newsType, scheduleTime, formatType);
      ok := SaveData();
    }

    /** `remove_group_schedule`: false, and no write, when the slot is empty. */
    method RemoveGroupSchedule(groupId: int, newsType: string) returns (ok: bool)
      requires Valid()
      modifies this
      ensures Valid()
      ensures (data, ok) == RemoveSchedule(old(data), IntToStr(groupId), newsType)
      ensures saved == if ok then old(saved) + [data] else old(saved)
    {
      var g := IntToStr(groupId);
      var r := RemoveSchedule(data, g, newsType);
      RemoveScheduleKeeps(data, g, newsType);
      if r.1 {
        data := r.0;
        ok := SaveData();
      } else {
        ok := false;
      }
    }
  }

  // ----- job ids -----

  const JobPrefix: string := "daily_news_"

  /** `f"daily_news_{group_id}_{news_type}"`, the id `add_job` and `remove_job` use. */
  function JobId(groupId: int, newsType: string): string {
    JobPrefix + IntToStr(groupId) + "_" + newsType
  }

  /** A job the scheduler lists: its id and its cron trigger's hour and minute. */
  datatype ListedJob = ListedJob(id: string, hour: int, minute: int)

  /** What `get_jobs` makes of one listed job. */
  datatype Decoded = Skip | Raise(error: Exc) | Job(groupId: int, newsType: string)

  function IntError(s: string): Exc {
    Other("invalid literal for int() with base 10: '" + s + "'")
  }

  /**
   * `get_jobs`' handling of one id as written: the guard `len(parts) < 3`
   * lets a three-part id through to `parts[3]`. Only three-part ids are
   * handled differently from the corrected `DecodeJob`, and such an id with
   * an integer group that passes the filter raises IndexError.
   */
  function DecodeJobAsWritten(id: string, groupFilter: Option<int>): (d: Decoded)
    ensures |Split(id, '_')| != 3 ==> d == DecodeJob(id, groupFilter)
    ensures var parts := Split(id, '_');
      StartsWith(id, JobPrefix) && |parts| == 3 && PyInt(parts[2]).Some?
        && (groupFilter.None? || PyInt(parts[2]).value == groupFilter.value)
      ==> d == Raise(Other("list index out of range"))
  {
    if !StartsWith(id, JobPrefix) then Skip
    else
      var parts := Split(id, '_');
      if |parts| < 3 then Skip
      else
        match PyInt(parts[2])
        case None => Raise(IntError(parts[2]))
        case Some(g) =>
          if groupFilter.Some? && g != groupFilter.value then Skip
          else if |parts| < 4 then Raise(Other("list index out of range"))
          else Job(g, parts[3])
  }

  /**
   * The same handling with the guard the two field reads need, `len(parts) < 4`.
   * It raises only for a group field that is not an integer, and every job it
   * yields is the id's group and type fields and passes the group filter.
   */
  function DecodeJob(id: string, groupFilter: Option<int>): (d: Decoded)
    ensures !StartsWith(id, JobPrefix) ==> d == Skip
    ensures d.Raise? ==>
      StartsWith(id, JobPrefix) && |Split(id, '_')| >= 4 && PyInt(Split(id, '_')[2]).None?
      && d.error == IntError(Split(id, '_')[2])
    ensures d.Job? ==>
      && StartsWith(id, JobPrefix) && |Split(id, '_')| >= 4
      && PyInt(Split(id, '_')[2]) == Some(d.groupId) && d.newsType == Split(id, '_')[3]
      && (groupFilter.Some? ==> d.groupId == groupFilter.value)
  {
    if !StartsWith(id, JobPrefix) then Skip
    else
      var parts := Split(id, '_');
      if |parts| < 4 then Skip
      else
        match PyInt(parts[2])
        case None => Raise(IntError(parts[2]))
        case Some(g) =>
          if groupFilter.Some? && g != groupFilter.value then Skip
          else Job(g, parts[3])
  }

  /** The row `get_jobs` reports for a job (its next run time is not modelled). */
  datatype JobInfo = JobInfo(groupId: int, newsType: string, scheduleTime: string, formatType: Json, description: string)

  /** The stored format when the store has a truthy schedule dict holding one, else `image`. */
  function FormatOf(config: Option<Json>): Json {
    if config.Some? && config.value.JObj? && Truthy(config.value) && HasKey(config.value.fields, "format_type")
    then Get(config.value.fields, "format_type", JNull)
    else JStr("image")
  }

  function Info(job: ListedJob, groupId: int, newsType: string, data: Table, describe: string -> Option<string>): JobInfo {
    JobInfo(groupId, newsType, FormatTime(job.hour, job.minute),
      FormatOf(Scheduled(data, IntToStr(groupId), newsType)),
      describe(newsType).GetOr("未知日报"))
  }

  /** The result of `get_jobs` over the listed jobs: the first raise ends it. */
  function JobsOf(listed: seq<ListedJob>, groupFilter: Option<int>, data: Table, describe: string -> Option<string>)
    : (r: Result<seq<JobInfo>, Exc>)
    ensures r.Success? ==> |r.value| <= |listed|
    ensures r.Failure? ==> r.error.Other? && StartsWith(r.error.message, "invalid literal for int() with base 10: '")
  {
    if |listed| == 0 then Success([])
    else
      Extended(JobsOf(listed[..|listed| - 1], groupFilter, data, describe), listed[|listed| - 1], groupFilter, data, describe)
  }

  /** The listing so far, followed by what one more job decodes to; the first exception wins. */
  function Extended(sofar: Result<seq<JobInfo>, Exc>, job: ListedJob, groupFilter: Option<int>, data: Table, describe: string -> Option<string>)
    : Result<seq<JobInfo>, Exc>
  {
    match sofar
    case Failure(e) => Failure(e)
    case Success(jobs) =>
      match DecodeJob(job.id, groupFilter)
      case Skip => Success(jobs)
      case Raise(e) => Failure(e)
      case Job(g, t) => Success(jobs + [Info(job, g, t, data, describe)])
  }

  /** `'_'` never occurs in the text of an integer. */
  lemma IntTextNoUnderscore(i: int)
    ensures '_' !in IntToStr(i)
  {
    var s := IntToStr(i);
    var d := NatToStr(if i < 0 then -i else i);
    assert forall k :: 0 <= k < |d| ==> IsDigit(d[k]);
    if i < 0 {
      assert s == "-" + d;
    }
  }

  /** An id made by `add_job` splits into `daily`, `news`, the group and the type's own fields. */
  lemma JobIdSplit(g: int, t: string)
    ensures Split(JobId(g, t), '_') == ["daily", "news", IntToStr(g)] + Split(t, '_')
    ensures StartsWith(JobId(g, t), JobPrefix)
  {
    IntTextNoUnderscore(g);
    PrefixedSplit(IntToStr(g), t);
  }

  /** `daily_news_<gs>_<t>` splits on `_` into `daily`, `news`, gs and the fields of t, when gs has no `_`. */
  lemma PrefixedSplit(gs: string, t: string)
    requires '_' !in gs
    ensures Split(JobPrefix + gs + "_" + t, '_') == ["daily", "news", gs] + Split(t, '_')
    ensures StartsWith(JobPrefix + gs + "_" + t, JobPrefix)
  {
    var id := JobPrefix + gs + "_" + t;
    assert id == "daily" + ['_'] + ("news" + ['_'] + (gs + ['_'] + t));
    assert id[..|JobPrefix|] == JobPrefix;
    SplitThree("daily", "news", gs, t, '_');
  }

  /** Three fields free of the separator, each followed by it, split off the front. */
  lemma SplitThree(a: string, b: string, c: string, rest: string, sep: char)
    requires sep !in a && sep !in b && sep !in c
    ensures Split(a + [sep] + (b + [sep] + (c + [sep] + rest)), sep) == [a, b, c] + Split(rest, sep)
  {
    SplitAt(c, sep, rest);
    SplitAt(b, sep, c + [sep] + rest);
    SplitAt(a, sep, b + [sep] + (c + [sep] + rest));
  }

  /** `get_jobs` reads back the group and type `add_job` encoded, for a type without `_`. */
  lemma JobIdRoundTrip(g: int, t: string)
    requires '_' !in t
    ensures DecodeJob(JobId(g, t), None) == Job(g, t)
    ensures DecodeJob(JobId(g, t), Some(g)) == Job(g, t)
    ensures forall other :: other != g ==> DecodeJob(JobId(g, t), Some(other)) == Skip
  {
    JobIdSplit(g, t);
    SplitNone(t, '_');
    IntRoundTrip(g);
  }

  /** For a type with `_`, only the part before the first `_` comes back. */
  lemma JobIdTruncatesType(g: int, a: string, b: string)
    requires '_' !in a
    ensures DecodeJob(JobId(g, a + "_" + b), None) == Job(g, a)
  {
    var t := a + "_" + b;
    JobIdSplit(g, t);
    assert t == a + ['_'] + b;
    SplitAt(a, '_', b);
    var parts := Split(JobId(g, t), '_');
    assert parts[2] == IntToStr(g) && parts[3] == a;
    IntRoundTrip(g);
  }

  /** As written, a three-part id raises out of `get_jobs`; with the corrected guard it is skipped. */
  lemma ThreePartIdRaises(id: string)
    requires id == "daily_news_5"
    ensures DecodeJobAsWritten(id, None) == Raise(Other("list index out of range"))
    ensures DecodeJob(id, None) == Skip
  {
    assert id == "daily" + ['_'] + ("news" + ['_'] + "5");
    SplitNone("5", '_');
    SplitAt("news", '_', "5");
    SplitAt("daily", '_', "news" + ['_'] + "5");
    assert Split(id, '_') == ["daily", "news", "5"];
    assert StartsWith(id, JobPrefix);
    assert PyInt("5") == Some(5) by {
      PyIntOfDigits("5");
      assert RunValue("5") == 10 * RunValue("") + DigitValue('5');
    }
  }

  /** Every job `get_jobs` reports belongs to the requested group. */
  lemma {:induction false} JobsOfFiltered(listed: seq<ListedJob>, g: int, data: Table, describe: string -> Option<string>)
    ensures JobsOf(listed, Some(g), data, describe).Success? ==>
      forall info :: info in JobsOf(listed, Some(g), data, describe).value ==> info.groupId == g
  {
    if |listed| > 0 {
      JobsOfFiltered(listed[..|listed| - 1], g, data, describe);
    }
  }

  // ----- the manager -----

  /** `ScheduleManager`: `jobs` is the set of ids the job scheduler holds. */
  class ScheduleManager {
    var jobs: set<string>
    const store: Store?

    constructor (store: Store?, jobs: set<string>)
      ensures this.store == store && this.jobs == jobs
    {
      this.store := store;
      this.jobs := jobs;
    }

    /**
     * `add_job`: an invalid hour or minute is rejected before anything
     * changes; otherwise the job replaces any job of that id and the store
     * records the formatted time with the format.
     */
    method AddJob(groupId: int, newsType: string, hour: int, minute: int, formatType: string)
      returns (r: Result<bool, Exc>)
      requires store != null ==> store.Valid()
      modifies this, store
      ensures store != null ==> store.Valid()
      ensures !ValidTime(hour, minute) ==>
        && r == Failure(InvalidTimeFormat("无效的时间", IntToStr(hour) + ":" + IntToStr(minute)))
        && jobs == old(jobs)
        && (store != null ==> store.data == old(store.data) && store.saved == old(store.saved))
      ensures ValidTime(hour, minute) ==>
        && r == Success(true)
        && jobs == old(jobs) + {JobId(groupId, newsType)}
        && (store != null ==>
             && store.data == SetSchedule(old(store.data), IntToStr(groupId), newsType, FormatTime(hour, minute), formatType)
             && store.saved == old(store.saved) + [store.data])
    {
      if !ValidTime(hour, minute) {
        return Failure(InvalidTimeFormat("无效的时间", IntToStr(hour) + ":" + IntToStr(minute)));
      }
      var jobId := JobId(groupId, newsType);
      jobs := jobs - {jobId};
      jobs := jobs + {jobId};
      if store != null {
        var _ := store.SetGroupSchedule(groupId, newsType, FormatTime(hour, minute), formatType);
      }
      r := Success(true);
    }

    /**
     * `remove_job`: true whether or not a job or a stored schedule existed;
     * the store is written only when it held the schedule.
     */
    method RemoveJob(groupId: int, newsType: string) returns (ok: bool)
      requires store != null ==> store.Valid()
      modifies this, store
      ensures store != null ==> store.Valid()
      ensures ok
      ensures jobs == old(jobs) - {JobId(groupId, newsType)}
      ensures store != null ==> store.data == RemoveSchedule(old(store.data), IntToStr(groupId), newsType).0
      ensures store != null ==>
        store.saved == if RemoveSchedule(old(store.data), IntToStr(groupId), newsType).1
                       then old(store.saved) + [store.data] else old(store.saved)
    {
      jobs := jobs - {JobId(groupId, newsType)};
      if store != null {
        var _ := store.RemoveGroupSchedule(groupId, newsType);
      }
      ok := true;
    }

    /** `get_jobs` over the jobs the scheduler lists; `describe` is the news-source lookup. */
    method GetJobs(listed: seq<ListedJob>, groupFilter: Option<int>, describe: string -> Option<string>)
      returns (r: Result<seq<JobInfo>, Exc>)
      ensures r == JobsOf(listed, groupFilter, if store != null then store.data else [], describe)
    {
      var data := if store != null then store.data else [];
      var found: seq<JobInfo> := [];
      for i := 0 to |listed|
        invariant JobsOf(listed[..i], groupFilter, data, describe) == Success(found)
      {
        JobsOfStep(listed, i, groupFilter, data, describe);
        var job := listed[i];
        var d := DecodeJob(job.id, groupFilter);
        assert JobsOf(listed[..i + 1], groupFilter, data, describe) == Extended(Success(found), job, groupFilter, data, describe);
        if d.Raise? {
          r := Failure(d.error);
          JobsOfRaise(listed, i, groupFilter, data, describe);
          return;
        } else if d.Job? {
          var row := Info(job, d.groupId, d.newsType, data, describe);
          assert Extended(Success(found), job, groupFilter, data, describe) == Success(found + [row]);
          found := found + [row];
        } else {
          assert Extended(Success(found), job, groupFilter, data, describe) == Success(found);
        }
        assert JobsOf(listed[..i + 1], groupFilter, data, describe) == Success(found);
      }
      assert listed[..|listed|] == listed;
      r := Success(found);
    }
  }

  /** The listing of one more job: the listing so far, then what that job decodes to. */
  lemma JobsOfStep(listed: seq<ListedJob>, i: nat, groupFilter: Option<int>, data: Table, describe: string -> Option<string>)
    requires i < |listed|
    ensures JobsOf(listed[..i + 1], groupFilter, data, describe) ==
      Extended(JobsOf(listed[..i], groupFilter, data, describe), listed[i], groupFilter, data, describe)
  {
    assert listed[..i + 1][..i] == listed[..i];
  }

  /** Once a listed job raises, so does the whole listing. */
  lemma {:induction false} JobsOfRaise(listed: seq<ListedJob>, i: nat, groupFilter: Option<int>, data: Table,
                                       describe: string -> Option<string>)
    requires i < |listed| && JobsOf(listed[..i], groupFilter, data, describe).Success?
    requires DecodeJob(listed[i].id, groupFilter).Raise?
    ensures JobsOf(listed, groupFilter, data, describe) == Failure(DecodeJob(listed[i].id, groupFilter).error)
    decreases |listed|
  {
    if i == |listed| - 1 {
      assert listed[..i] == listed[..|listed| - 1];
    } else {
      assert listed[..|listed| - 1][..i] == listed[..i];
      JobsOfRaise(listed[..|listed| - 1], i, groupFilter, data, describe);
    }
  }
}
