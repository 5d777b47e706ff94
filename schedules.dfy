/**
 * The schedule table the schedule stores keep: group id → news type →
 * schedule dict, each level a Python dict in insertion order, and the
 * updates and queries `set_group_schedule`, `remove_group_schedule`,
 * `get_group_schedule(s)` and `get_all_groups_by_news_type` apply to it.
 * Schedule dicts stay decoded JSON values, since a store hands back whatever
 * the file held.
 */
module Schedules {
  import opened Wrappers
  import opened JsonValue
  import opened Dicts

  type Group = Dict<string, Json>
  type Table = Dict<string, Group>

  /** The dict `set_group_schedule` stores: exactly these two fields. */
  function Entry(scheduleTime: string, formatType: string): Json {
    JObj([("schedule_time", JStr(scheduleTime)), ("format_type", JStr(formatType))])
  }

  /** `get_group_schedule`: `data[group][newsType]` when both keys exist, else `None`. */
  function Scheduled(data: Table, group: string, newsType: string): Option<Json> {
    match Find(data, group)
    case None => None
    case Some(g) => Find(g, newsType)
  }

  /** `get_group_schedules`: `data.get(group, {})`. */
  function GroupSchedules(data: Table, group: string): Group {
    Find(data, group).GetOr([])
  }

  /** Every group holds at least one schedule. */
  predicate NoEmptyGroups(data: Table) {
    forall e :: e in data ==> |e.1| > 0
  }

  // ----- set_group_schedule -----

  /** Create the group's dict if it is missing, then store the entry under the type. */
  function SetSchedule(data: Table, group: string, newsType: string, scheduleTime: string, formatType: string): Table {
    Put(data, group, Put(GroupSchedules(data, group), newsType, Entry(scheduleTime, formatType)))
  }

  /** The (group, type) slot reads the new entry; every other slot reads as before. */
  lemma SetScheduleSpec(data: Table, group: string, newsType: string, st: string, ft: string, g: string, t: string)
    ensures Scheduled(SetSchedule(data, group, newsType, st, ft), g, t)
      == if g == group && t == newsType then Some(Entry(st, ft)) else Scheduled(data, g, t)
    ensures Keys(SetSchedule(data, group, newsType, st, ft))
      == if group in Keys(data) then Keys(data) else Keys(data) + [group]
  {
    var inner := Put(GroupSchedules(data, group), newsType, Entry(st, ft));
    PutFind(data, group, inner, g);
    PutFind(GroupSchedules(data, group), newsType, Entry(st, ft), t);
  }

  /** Setting keeps keys unique and never leaves an empty group. */
  lemma SetScheduleKeeps(data: Table, group: string, newsType: string, st: string, ft: string)
    ensures Distinct(data) ==> Distinct(SetSchedule(data, group, newsType, st, ft))
    ensures NoEmptyGroups(data) ==> NoEmptyGroups(SetSchedule(data, group, newsType, st, ft))
  {
    var inner := Put(GroupSchedules(data, group), newsType, Entry(st, ft));
    assert |Keys(inner)| > 0;
    if Distinct(data) {
      PutDistinct(data, group, inner);
    }
    PutEntries(data, group, inner);
  }

  // ----- remove_group_schedule -----

  /**
   * Delete the (group, type) entry if present, then the group if it emptied;
   * the flag says whether anything was deleted.
   */
  function RemoveSchedule(data: Table, group: string, newsType: string): (Table, bool) {
    match Find(data, group)
    case Some(g) =>
      if newsType in Keys(g) then
        var rest := Remove(g, newsType);
        (if |rest| == 0 then Remove(data, group) else Put(data, group, rest), true)
      else (data, false)
    case None => (data, false)
  }

  /**
   * Removal reports whether the slot was filled, empties exactly that slot,
   * and leaves the table untouched when it reports false.
   */
  lemma RemoveScheduleSpec(data: Table, group: string, newsType: string, g: string, t: string)
    ensures RemoveSchedule(data, group, newsType).1 <==> Scheduled(data, group, newsType).Some?
    ensures !RemoveSchedule(data, group, newsType).1 ==> RemoveSchedule(data, group, newsType).0 == data
    ensures Scheduled(RemoveSchedule(data, group, newsType).0, g, t)
      == if g == group && t == newsType then None else Scheduled(data, g, t)
  {
    var r := RemoveSchedule(data, group, newsType).0;
    if Scheduled(data, group, newsType).Some? {
      var old_ := Find(data, group).value;
      var rest := Remove(old_, newsType);
      RemoveFind(old_, newsType, t);
      if |rest| == 0 {
        RemoveFind(data, group, g);
        if g == group {
          assert r == Remove(data, group);
        } else {
          assert Scheduled(r, g, t) == Scheduled(data, g, t);
        }
      } else {
        PutFind(data, group, rest, g);
      }
    }
  }

  /** A group whose last schedule is removed disappears, so no group is ever left empty. */
  lemma RemoveScheduleKeeps(data: Table, group: string, newsType: string)
    ensures Distinct(data) ==> Distinct(RemoveSchedule(data, group, newsType).0)
    ensures NoEmptyGroups(data) ==> NoEmptyGroups(RemoveSchedule(data, group, newsType).0)
  {
    match Find(data, group)
    case Some(g) =>
      if newsType in Keys(g) {
        var rest := Remove(g, newsType);
        if |rest| == 0 {
          RemoveEntries(data, group);
          if Distinct(data) {
            RemoveDistinct(data, group);
          }
        } else {
          PutEntries(data, group, rest);
          if Distinct(data) {
            PutDistinct(data, group, rest);
          }
        }
      }
    case None =>
  }

  // ----- get_all_groups_by_news_type -----

  /** The groups whose dict holds the type, in the table's order. */
  function GroupsWith(data: Table, newsType: string): seq<string> {
    if |data| == 0 then []
    else
      GroupsWith(data[..|data| - 1], newsType)
        + (if newsType in Keys(data[|data| - 1].1) then [data[|data| - 1].0] else [])
  }

  /** The loop over `data.items()` that collects the subscribed groups. */
  method CollectGroups(data: Table, newsType: string) returns (groups: seq<string>)
    ensures groups == GroupsWith(data, newsType)
  {
    groups := [];
    var i := 0;
    while i < |data|
      invariant 0 <= i <= |data|
      invariant groups == GroupsWith(data[..i], newsType)
    {
      assert data[..i + 1][..i] == data[..i];
      var (groupId, schedules) := data[i];
      if newsType in Keys(schedules) {
        groups := groups + [groupId];
      }
      i := i + 1;
    }
    assert data[..i] == data;
  }

  /** A group is listed exactly when it has a schedule of that type. */
  lemma {:induction false} GroupsWithSpec(data: Table, newsType: string, g: string)
    requires Distinct(data)
    ensures g in GroupsWith(data, newsType) <==> Scheduled(data, g, newsType).Some?
    decreases |data|
  {
    if |data| > 0 {
      var init := data[..|data| - 1];
      var last := data[|data| - 1];
      DistinctInit(data);
      GroupsWithSpec(init, newsType, g);
      assert data == init + [last];
      FindAppend(init, last, g);
    }
  }

  /** The listing never names a group twice. */
  lemma {:induction false} GroupsWithUnique(data: Table, newsType: string)
    requires Distinct(data)
    ensures forall i, j :: 0 <= i < j < |GroupsWith(data, newsType)| ==>
      GroupsWith(data, newsType)[i] != GroupsWith(data, newsType)[j]
    decreases |data|
  {
    if |data| > 0 {
      var init := data[..|data| - 1];
      var last := data[|data| - 1];
      DistinctInit(data);
      GroupsWithUnique(init, newsType);
      if last.0 in GroupsWith(init, newsType) {
        GroupsWithSpec(init, newsType, last.0);
      }
    }
  }
}
