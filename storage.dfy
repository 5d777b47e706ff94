/**
 * `ScheduleStorage`, the JSON-file schedule store of utils/storage.py and its
 * copy in utils/core.py (which adds the `知乎` → `知乎日报` migration), and the
 * `BaseStorage` default-value handling both inherit.
 *
 * The dict behind `data` is an object of its own (`TableObject`), because
 * `BaseStorage` shares it by reference with `default_value`; see README,
 * "Findings". The file is reduced to the sequence of tables the store has
 * written to it (`saved`); writing is taken to succeed.
 */
module Storage {
  import opened Wrappers
  import opened PyText
  import opened JsonValue
  import opened Dicts
  import opened Schedules

  /** A Python dict object holding a schedule table. */
  class TableObject {
    var entries: Table

    constructor (entries: Table)
      ensures this.entries == entries
    {
      this.entries := entries;
    }
  }

  /** What reading the storage file at start-up gave. */
  datatype Loaded =
    | Missing
      /** The file held invalid JSON; it is backed up and overwritten. */
    | Corrupt
      /** Reading failed some other way; nothing is written. */
    | Unreadable
    | Decoded(table: Table)

  // ----- the 知乎 → 知乎日报 migration (utils/core.py) -----

  const OldZhihu: string := "知乎"
  const NewZhihu: string := "知乎日报"

  /** One group's migration: the old entry moves to the new key, replacing any entry there. */
  function MigrateGroup(s: Group): Group {
    match Find(s, OldZhihu)
    case Some(v) => Remove(Put(s, NewZhihu, v), OldZhihu)
    case None => s
  }

  /** The table after every group is migrated; the groups keep their order. */
  function Migrated(data: Table): (r: Table)
    ensures |r| == |data|
    ensures forall j :: 0 <= j < |data| ==> r[j] == (data[j].0, MigrateGroup(data[j].1))
  {
    if |data| == 0 then []
    else Migrated(data[..|data| - 1]) + [(data[|data| - 1].0, MigrateGroup(data[|data| - 1].1))]
  }

  /** Some group still has a `知乎` entry. */
  predicate HasOldKey(data: Table) {
    exists j :: 0 <= j < |data| && OldZhihu in Keys(data[j].1)
  }

  /** After migration `知乎` is gone, `知乎日报` holds what `知乎` held, and every other type is untouched. */
  lemma MigrateGroupSpec(s: Group, t: string)
    ensures Find(MigrateGroup(s), t)
      == if t == OldZhihu then None
         else if t == NewZhihu && Find(s, OldZhihu).Some? then Find(s, OldZhihu)
         else Find(s, t)
    ensures |s| > 0 ==> |MigrateGroup(s)| > 0
  {
    match Find(s, OldZhihu)
    case Some(v) =>
      var put := Put(s, NewZhihu, v);
      PutFind(s, NewZhihu, v, t);
      RemoveFind(put, OldZhihu, t);
      RemoveFind(put, OldZhihu, NewZhihu);
      PutFind(s, NewZhihu, v, NewZhihu);
    case None =>
  }

  /** Reading the migrated table is reading the table and migrating the group found. */
  lemma {:induction false} MigratedFind(data: Table, g: string)
    ensures Find(Migrated(data), g) == match Find(data, g) case Some(s) => Some(MigrateGroup(s)) case None => None
    ensures Keys(Migrated(data)) == Keys(data)
    decreases |data|
  {
    if |data| > 0 {
      assert Migrated(data)[1..] == Migrated(data[1..]);
      MigratedFind(data[1..], g);
    }
  }

  /** No group keeps a `知乎` entry, the group order is unchanged, and no group empties. */
  lemma MigratedSpec(data: Table)
    ensures !HasOldKey(Migrated(data))
    ensures Keys(Migrated(data)) == Keys(data)
    ensures NoEmptyGroups(data) ==> NoEmptyGroups(Migrated(data))
    ensures !HasOldKey(data) ==> Migrated(data) == data
  {
    MigratedFind(data, "");
    forall j | 0 <= j < |data|
      ensures OldZhihu !in Keys(Migrated(data)[j].1)
      ensures |data[j].1| > 0 ==> |Migrated(data)[j].1| > 0
    {
      MigrateGroupSpec(data[j].1, OldZhihu);
    }
    if NoEmptyGroups(data) {
      forall e | e in Migrated(data)
        ensures |e.1| > 0
      {
        var j :| 0 <= j < |data| && Migrated(data)[j] == e;
        assert data[j] in data;
      }
    }
  }

  /** The body of `_migrate_old_data` for one group: the migrated group, and whether it held `知乎`. */
  method MigrateSchedules(schedules: Group) returns (r: Group, moved: bool)
    ensures r == MigrateGroup(schedules)
    ensures moved <==> OldZhihu in Keys(schedules)
  {
    r := schedules;
    moved := false;
    match Find(schedules, OldZhihu) {
      case Some(v) =>
        r := Remove(Put(schedules, NewZhihu, v), OldZhihu);
        moved := true;
      case None =>
    }
  }

  /** The loop of `_migrate_old_data` over the groups, moving each group's `知乎` entry. */
  method MigrateTable(data: Table) returns (entries: Table, migrated: bool)
    ensures entries == Migrated(data)
    ensures migrated == HasOldKey(data)
  {
    entries := data;
    migrated := false;
    var i := 0;
    while i < |entries|
      invariant |entries| == |data| && 0 <= i <= |data|
      invariant forall j :: 0 <= j < i ==> entries[j] == (data[j].0, MigrateGroup(data[j].1))
      invariant forall j :: i <= j < |data| ==> entries[j] == data[j]
      invariant migrated == OldKeyBefore(data, i)
    {
      var (groupId, schedules) := entries[i];
      var migratedGroup, moved := MigrateSchedules(schedules);
      if moved {
        entries := entries[i := (groupId, migratedGroup)];
        migrated := true;
      }
      i := i + 1;
    }
    assert forall j :: 0 <= j < |data| ==> entries[j] == Migrated(data)[j];
    OldKeyBeforeSpec(data, |data|);
  }

  /** Some of the first i groups has a `知乎` entry. */
  predicate OldKeyBefore(data: Table, i: nat)
    requires i <= |data|
  {
    i > 0 && (OldKeyBefore(data, i - 1) || OldZhihu in Keys(data[i - 1].1))
  }

  lemma {:induction false} OldKeyBeforeSpec(data: Table, i: nat)
    requires i <= |data|
    ensures OldKeyBefore(data, i) <==> exists j :: 0 <= j < i && OldZhihu in Keys(data[j].1)
  {
    if i > 0 {
      OldKeyBeforeSpec(data, i - 1);
    }
  }

  // ----- the store -----

  /**
   * The corrected store: `data` never shares its dict with `default_value`,
   * so `reset` empties the table. Methods that the original returns
   * `self.save()` from return true, since writing is taken to succeed.
   */
  class ScheduleStorage {
    const defaultValue: TableObject
    var data: TableObject
    var saved: seq<Table>

    ghost predicate Valid()
      reads this, data, defaultValue
    {
      data != defaultValue && defaultValue.entries == [] && Distinct(data.entries)
    }

    /** `__init__`: load the file; a missing or corrupt file is replaced by `{}`. */
    constructor (loaded: Loaded)
      requires loaded.Decoded? ==> Distinct(loaded.table)
      ensures Valid() && fresh(data)
      ensures data.entries == if loaded.Decoded? then loaded.table else []
      ensures saved == if loaded.Missing? || loaded.Corrupt? then [[]] else []
    {
      defaultValue := new TableObject([]);
      saved := if loaded.Missing? || loaded.Corrupt? then [[]] else [];
      data := new TableObject(if loaded.Decoded? then loaded.table else []);
    }

    method Save() returns (ok: bool)
      modifies this
      ensures data == old(data) && saved == old(saved) + [data.entries]
      ensures ok
    {
      saved := saved + [data.entries];
      ok := true;
    }

    /** `set_group_schedule`. */
    method SetGroupSchedule(groupId: int, newsType: string, scheduleTime: string, formatType: string)
      returns (ok: bool)
      requires Valid()
      modifies this, data
      ensures Valid() && data == old(data)
      ensures data.entries == SetSchedule(old(data.entries), IntToStr(groupId), newsType, scheduleTime, formatType)
      ensures saved == old(saved) + [data.entries] && ok
    {
      var g := IntToStr(groupId);
      SetScheduleKeeps(data.entries, g, newsType, scheduleTime, formatType);
      data.entries := SetSchedule(data.entries, g, newsType, scheduleTime, formatType);
      ok := Save();
    }

    /** `remove_group_schedule`: false, and no write, when the slot is empty. */
    method RemoveGroupSchedule(groupId: int, newsType: string) returns (ok: bool)
      requires Valid()
      modifies this, data
      ensures Valid() && data == old(data)
      ensures (data.entries, ok) == RemoveSchedule(old(data.entries), IntToStr(groupId), newsType)
      ensures saved == if ok then old(saved) + [data.entries] else old(saved)
    {
      var g := IntToStr(groupId);
      var r := RemoveSchedule(data.entries, g, newsType);
      RemoveScheduleKeeps(data.entries, g, newsType);
      if r.1 {
        data.entries := r.0;
        ok := Save();
      } else {
        ok := false;
      }
    }

    /** `get_group_schedules`. */
    function GetGroupSchedules(groupId: int): (g: Group)
      reads this, data
      ensures IntToStr(groupId) in Keys(data.entries) ==> Some(g) == Find(data.entries, IntToStr(groupId))
      ensures IntToStr(groupId) !in Keys(data.entries) ==> g == []
    {
      GroupSchedules(data.entries, IntToStr(groupId))
    }

    /** `get_group_schedule`. */
    function GetGroupSchedule(groupId: int, newsType: string): (r: Option<Json>)
      reads this, data
      ensures r == Find(GetGroupSchedules(groupId), newsType)
      ensures r.Some? ==> IntToStr(groupId) in Keys(data.entries) && newsType in Keys(GetGroupSchedules(groupId))
    {
      Scheduled(data.entries, IntToStr(groupId), newsType)
    }

    /** `get_all_groups_by_news_type`. */
    method GetAllGroupsByNewsType(newsType: string) returns (groups: seq<string>)
      ensures groups == GroupsWith(data.entries, newsType)
    {
      groups := CollectGroups(data.entries, newsType);
    }

    /** `_migrate_old_data` (utils/core.py), which its `__init__` runs after loading. */
    method MigrateOldData() returns (migrated: bool)
      requires Valid()
      modifies this, data
      ensures Valid() && data == old(data)
      ensures data.entries == Migrated(old(data.entries))
      ensures migrated == HasOldKey(old(data.entries))
      ensures saved == if migrated then old(saved) + [data.entries] else old(saved)
    {
      var entries;
      entries, migrated := MigrateTable(data.entries);
      MigratedFind(old(data.entries), "");
      DistinctKeys(old(data.entries), entries);
      data.entries := entries;
      if migrated {
        migrated := Save();
      }
    }

    /** `reset`, corrected: `data` becomes a fresh copy of the default, so the table is empty. */
    method Reset() returns (ok: bool)
      requires Valid()
      modifies this
      ensures Valid() && fresh(data)
      ensures data.entries == [] && saved == old(saved) + [[]] && ok
    {
      data := new TableObject(defaultValue.entries);
      ok := Save();
    }
  }

  // ----- BaseStorage as written -----

  /**
   * `BaseStorage` as utils/storage.py and utils/core.py write it: a missing or
   * unreadable file makes `data` the very object `default_value` is, and
   * `reset` assigns that object again.
   */
  class BaseStorageAsWritten {
    const defaultValue: TableObject
    var data: TableObject
    var saved: seq<Table>

    constructor (loaded: Loaded)
      ensures fresh(defaultValue) && defaultValue.entries == []
      ensures loaded.Decoded? ==> fresh(data) && data.entries == loaded.table
      ensures !loaded.Decoded? ==> data == defaultValue
      ensures saved == if loaded.Missing? || loaded.Corrupt? then [[]] else []
    {
      defaultValue := new TableObject([]);
      saved := if loaded.Missing? || loaded.Corrupt? then [[]] else [];
      if loaded.Decoded? {
        data := new TableObject(loaded.table);
      } else {
        data := defaultValue;
      }
    }

    /** `reset` as written: `self.data = self.default_value`, then save. */
    method Reset() returns (ok: bool)
      modifies this
      ensures data == defaultValue && saved == old(saved) + [defaultValue.entries] && ok
    {
      data := defaultValue;
      saved := saved + [data.entries];
      ok := true;
    }
  }

  /**
   * Starting without a file, setting a schedule and resetting leaves the
   * schedule in place and writes it back to the file: the update went into
   * the shared default object.
   */
  method ResetKeepsSchedule() returns (after: Table, written: Table)
    ensures Scheduled(after, "1", NewZhihu) == Some(Entry("08:00", "image"))
    ensures written == after
  {
    var s := new BaseStorageAsWritten(Missing);
    // what `set_group_schedule(1, "知乎日报", "08:00", "image")` does to `data`
    s.data.entries := SetSchedule(s.data.entries, "1", NewZhihu, "08:00", "image");
    var _ := s.Reset();
    after := s.data.entries;
    written := s.saved[|s.saved| - 1];
    SetScheduleSpec([], "1", NewZhihu, "08:00", "image", "1", NewZhihu);
  }

  /** The corrected store: whatever was set before, `reset` leaves no schedule anywhere. */
  method ResetClears() returns (after: Table)
    ensures after == []
    ensures forall g, t :: Scheduled(after, g, t).None?
  {
    var s := new ScheduleStorage(Missing);
    var _ := s.SetGroupSchedule(1, NewZhihu, "08:00", "image");
    var _ := s.Reset();
    after := s.data.entries;
  }
}
