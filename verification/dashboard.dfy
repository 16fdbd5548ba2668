/** The audit dashboard (src/pages/Dashboard.tsx): the statistics it builds from the loaded
    logs when the statistics endpoint gives none (a count per action, per status and per
    level, and the ten most recent entries), the colour of each action, status and level
    tag, and the filter and paging state behind the log table. */
module Dashboard {
  import opened Common
  import AuditLogService

  /** The fields of an audit log entry the dashboard reads. */
  datatype AuditLog = AuditLog(id: string, action: string, status: string, level: string)

  /** Which field of a log is counted. */
  datatype Field = ActionField | StatusField | LevelField

  function KeyOf(log: AuditLog, field: Field): string {
    match field
    case ActionField => log.action
    case StatusField => log.status
    case LevelField => log.level
  }

  /** The counted field of every log, in order. */
  function Project(logs: seq<AuditLog>, field: Field): seq<string> {
    seq(|logs|, i requires 0 <= i < |logs| => KeyOf(logs[i], field))
  }

  /** The accumulator of the `reduce`: a count per key, keys in the order first seen. */
  type Tally = seq<(string, int)>

  /** `acc[key] || 0`. */
  function CountOf(t: Tally, key: string): int {
    match Lookup(t, key)
    case None => 0
    case Some(c) => c
  }

  /** `acc[key] = (acc[key] || 0) + 1`. */
  function Bump(t: Tally, key: string): Tally {
    Assign(t, key, CountOf(t, key) + 1)
  }

  /** The tally the `reduce` over `keys` leaves. */
  function Counted(keys: seq<string>): Tally {
    if keys == [] then [] else Bump(Counted(keys[..|keys| - 1]), keys[|keys| - 1])
  }

  /** The number of times `key` occurs in `keys`. */
  function Occurrences(keys: seq<string>, key: string): nat {
    if keys == [] then 0
    else Occurrences(keys[..|keys| - 1], key) + if keys[|keys| - 1] == key then 1 else 0
  }

  /** The occurrences count is the multiplicity of the key in the multiset of keys. */
  lemma {:induction false} OccurrencesIsMultiplicity(keys: seq<string>, key: string)
    ensures Occurrences(keys, key) == multiset(keys)[key]
    decreases |keys|
  {
    if keys != [] {
      var init := keys[..|keys| - 1];
      assert keys == init + [keys[|keys| - 1]];
      OccurrencesIsMultiplicity(init, key);
    }
  }

  lemma BumpLookup(t: Tally, bumped: string, key: string)
    ensures Lookup(Bump(t, bumped), key) == if key == bumped then Some(CountOf(t, bumped) + 1) else Lookup(t, key)
  {
  }

  /** Each key is counted by its number of occurrences, and only keys that occur are there. */
  lemma {:induction false} CountedLookup(keys: seq<string>, key: string)
    ensures CountOf(Counted(keys), key) == Occurrences(keys, key)
    ensures Lookup(Counted(keys), key).None? <==> Occurrences(keys, key) == 0
    decreases |keys|
  {
    if keys != [] {
      var init := keys[..|keys| - 1];
      CountedLookup(init, key);
      BumpLookup(Counted(init), keys[|keys| - 1], key);
    }
  }

  /** Every key appears once in the tally. */
  lemma {:induction false} CountedUnique(keys: seq<string>)
    ensures UniqueKeys(Counted(keys))
    decreases |keys|
  {
    if keys != [] {
      var init := keys[..|keys| - 1];
      CountedUnique(init);
      AssignKeepsUnique(Counted(init), keys[|keys| - 1], CountOf(Counted(init), keys[|keys| - 1]) + 1);
    }
  }

  /** The sum of the counts of a tally. */
  function Total(t: Tally): int {
    if t == [] then 0 else t[0].1 + Total(t[1..])
  }

  lemma {:induction false} TotalAfterAssign(t: Tally, key: string, v: int)
    ensures Total(Assign(t, key, v)) == Total(t) + v - CountOf(t, key)
    decreases |t|
  {
    if t != [] {
      var r := Assign(t, key, v);
      if t[0].0 == key {
        assert r[1..] == t[1..];
      } else {
        TotalAfterAssign(t[1..], key, v);
        assert r[1..] == Assign(t[1..], key, v);
      }
    }
  }

  /** The counts add up to the number of keys counted. */
  lemma {:induction false} CountedTotal(keys: seq<string>)
    ensures Total(Counted(keys)) == |keys|
    decreases |keys|
  {
    if keys != [] {
      var init := keys[..|keys| - 1];
      var last := keys[|keys| - 1];
      CountedTotal(init);
      TotalAfterAssign(Counted(init), last, CountOf(Counted(init), last) + 1);
    }
  }

  /** Projecting one more log appends its field's value. */
  lemma ProjectStep(logs: seq<AuditLog>, i: int, field: Field)
    requires 0 <= i < |logs|
    ensures Project(logs[..i + 1], field) == Project(logs[..i], field) + [KeyOf(logs[i], field)]
  {
  }

  /** The `reduce` over the logs for one field, as the accumulating loop it is. */
  method CountBy(logs: seq<AuditLog>, field: Field) returns (acc: Tally)
    ensures acc == Counted(Project(logs, field))
  {
    acc := [];
    var i := 0;
    while i < |logs|
      invariant 0 <= i <= |logs|
      invariant acc == Counted(Project(logs[..i], field))
    {
      var key := KeyOf(logs[i], field);
      ProjectStep(logs, i, field);
      acc := Bump(acc, key);
      i := i + 1;
    }
    assert logs[..i] == logs;
  }

  /** `AuditLogStats`. */
  datatype Stats = Stats(totalLogs: int, byAction: Tally, byStatus: Tally, byLevel: Tally,
                         recentActivity: seq<AuditLog>)

  /** How many entries the recent activity keeps. */
  const RecentCount: int := 10

  /** `generateStatsFromLogs()`: `None` when there are no logs, and the statistics are then
      left as they were. */
  function StatsFromLogs(logs: seq<AuditLog>): Option<Stats> {
    if |logs| == 0 then None
    else
      Some(Stats(|logs|, Counted(Project(logs, ActionField)), Counted(Project(logs, StatusField)),
                 Counted(Project(logs, LevelField)),
                 logs[..if |logs| < RecentCount then |logs| else RecentCount]))
  }

  /** The counts of one field in the statistics. */
  function Breakdown(s: Stats, field: Field): Tally {
    match field
    case ActionField => s.byAction
    case StatusField => s.byStatus
    case LevelField => s.byLevel
  }

  /** For logs to count, the statistics count every log: for each field the counts add up to
      `totalLogs`, every value appears once, counted by how many logs carry it, and the recent
      activity is the first `min(10, n)` logs in their order. */
  lemma StatsAreCounts(logs: seq<AuditLog>, field: Field, key: string)
    ensures StatsFromLogs(logs).None? <==> logs == []
    ensures StatsFromLogs(logs).Some? ==>
      var s := StatsFromLogs(logs).value;
      var keys := Project(logs, field);
      s.totalLogs == |logs| && Total(Breakdown(s, field)) == s.totalLogs &&
      UniqueKeys(Breakdown(s, field)) &&
      CountOf(Breakdown(s, field), key) == Occurrences(keys, key) &&
      (Lookup(Breakdown(s, field), key).Some? <==> Occurrences(keys, key) > 0) &&
      |s.recentActivity| == (if |logs| < 10 then |logs| else 10) &&
      (forall i :: 0 <= i < |s.recentActivity| ==> s.recentActivity[i] == logs[i])
  {
    if logs != [] {
      StatsShape(logs, field);
      TallyCounts(Project(logs, field), key);
    }
  }

  /** The statistics of a non-empty list: its length, the tally of each field, its first
      `min(10, n)` logs. */
  lemma StatsShape(logs: seq<AuditLog>, field: Field)
    requires logs != []
    ensures StatsFromLogs(logs).Some?
    ensures StatsFromLogs(logs).value.totalLogs == |logs|
    ensures Breakdown(StatsFromLogs(logs).value, field) == Counted(Project(logs, field))
    ensures StatsFromLogs(logs).value.recentActivity == logs[..if |logs| < 10 then |logs| else 10]
  {
    match field
    case ActionField =>
    case StatusField =>
    case LevelField =>
  }

  /** The tally of a list of keys sums to its length, has unique keys and counts each key's
      occurrences. */
  lemma TallyCounts(keys: seq<string>, key: string)
    ensures Total(Counted(keys)) == |keys| && UniqueKeys(Counted(keys))
    ensures CountOf(Counted(keys), key) == Occurrences(keys, key)
    ensures Lookup(Counted(keys), key).Some? <==> Occurrences(keys, key) > 0
  {
    CountedTotal(keys);
    CountedUnique(keys);
    CountedLookup(keys, key);
  }

  /** `getActionColor`. */
  const ActionColors: seq<(string, string)> :=
    [("CREATE", "green"), ("READ", "blue"), ("UPDATE", "orange"), ("DELETE", "red"),
     ("LOGIN", "cyan"), ("LOGOUT", "purple"), ("EXPORT", "geekblue"), ("SEARCH", "lime")]

  /** `getLevelColor`. */
  const LevelColors: seq<(string, string)> :=
    [("INFO", "blue"), ("WARNING", "orange"), ("ERROR", "red"), ("DEBUG", "purple")]

  /** `colors[key] || 'default'`. */
  function ColorFrom(colors: seq<(string, string)>, key: string): string {
    match Lookup(colors, key)
    case Some(c) => if c == "" then "default" else c
    case None => "default"
  }

  function ActionColor(action: string): string {
    ColorFrom(ActionColors, action)
  }

  function LevelColor(level: string): string {
    ColorFrom(LevelColors, level)
  }

  /** `getStatusColor`. */
  function StatusColor(status: string): string {
    if status == "SUCCESS" then "success" else if status == "FAILURE" then "error" else "warning"
  }

  /** An action or a level outside its table gets `default`. */
  lemma UnknownTagsAreDefault(action: string, level: string)
    ensures (forall i :: 0 <= i < |ActionColors| ==> ActionColors[i].0 != action) ==> ActionColor(action) == "default"
    ensures (forall i :: 0 <= i < |LevelColors| ==> LevelColors[i].0 != level) ==> LevelColor(level) == "default"
  {
  }

  /** A key of a table with distinct keys gets its own colour. */
  lemma TableColor(colors: seq<(string, string)>, i: int)
    requires UniqueKeys(colors) && 0 <= i < |colors| && colors[i].1 != ""
    ensures ColorFrom(colors, colors[i].0) == colors[i].1
  {
    var r := Lookup(colors, colors[i].0);
    var j :| 0 <= j < |colors| && colors[j] == (colors[i].0, r.value);
    assert j == i;
  }

  /** Every action and every level of the tables gets its own colour. */
  lemma KnownTagColors()
    ensures forall i :: 0 <= i < |ActionColors| ==> ActionColor(ActionColors[i].0) == ActionColors[i].1
    ensures forall i :: 0 <= i < |LevelColors| ==> LevelColor(LevelColors[i].0) == LevelColors[i].1
  {
    assert UniqueKeys(ActionColors);
    assert UniqueKeys(LevelColors);
    forall i | 0 <= i < |ActionColors|
      ensures ActionColor(ActionColors[i].0) == ActionColors[i].1
    {
      TableColor(ActionColors, i);
    }
    forall i | 0 <= i < |LevelColors|
      ensures LevelColor(LevelColors[i].0) == LevelColors[i].1
    {
      TableColor(LevelColors, i);
    }
  }

  /** A status is `success` exactly for `SUCCESS`, `error` exactly for `FAILURE`, and
      `warning` for everything else. */
  lemma StatusColors(status: string)
    ensures StatusColor(status) == "success" <==> status == "SUCCESS"
    ensures StatusColor(status) == "error" <==> status == "FAILURE"
    ensures StatusColor(status) == "warning" <==> status != "SUCCESS" && status != "FAILURE"
  {
  }

  /** The names of the dashboard's filters, in the order the filters object lists them. */
  const FilterNames: seq<string> :=
    ["search", "action", "entity_type", "status", "level", "start_date", "end_date"]

  /** The filters the dashboard starts and resets to: every filter name with an empty text. */
  const EmptyFilters: seq<(string, Js)> :=
    seq(|FilterNames|, i requires 0 <= i < |FilterNames| => (FilterNames[i], Str("")))

  /** No filter name is listed twice. */
  lemma FilterNamesDistinct()
    ensures forall i, j :: 0 <= i < j < |FilterNames| ==> FilterNames[i] != FilterNames[j]
  {
    var n := FilterNames;
    assert n[0][1] == 'e' && n[1][0] == 'a' && n[2][0] == 'e' && n[3][1] == 't';
    assert n[4][0] == 'l' && n[5][2] == 'a' && n[6][1] == 'n' && n[3][2] == 'a' && n[5][6] == 'd';
  }

  /** The reset filters hold exactly the seven keys, each empty. */
  lemma EmptyFiltersAreEmpty(k: string)
    ensures |Keys(EmptyFilters)| == 7 && UniqueKeys(EmptyFilters)
    ensures Lookup(EmptyFilters, k).Some? ==> Lookup(EmptyFilters, k) == Some(Str(""))
    ensures Lookup(EmptyFilters, k).Some? <==> k in FilterNames
  {
    assert Keys(EmptyFilters) == FilterNames;
    LookupPresent(EmptyFilters, k);
    FilterNamesDistinct();
  }

  /** Clearing a dropdown stores `undefined` where the empty choice stores `''`; the audit
      query drops both, so the two send the same query pairs. */
  lemma ClearedFilterSendsSameQuery(filters: seq<(string, Js)>, key: string)
    ensures AuditLogService.KeptPairs(Assign(filters, key, Undefined)) ==
      AuditLogService.KeptPairs(Assign(filters, key, Str("")))
  {
    DroppedValuesSendSameQuery(filters, key, Undefined, Str(""));
  }

  /** Putting either of two dropped values under a key gives the same query pairs. */
  lemma {:induction false} DroppedValuesSendSameQuery(filters: seq<(string, Js)>, key: string, u: Js, v: Js)
    requires !AuditLogService.Kept(u) && !AuditLogService.Kept(v)
    ensures AuditLogService.KeptPairs(Put(filters, key, u)) == AuditLogService.KeptPairs(Put(filters, key, v))
    decreases |filters|
  {
    if filters == [] {
      assert AuditLogService.KeptPairs([(key, u)]) == [];
      assert AuditLogService.KeptPairs([(key, v)]) == [];
    } else if filters[0].0 == key {
      AuditLogService.KeptPairsAppend([(key, u)], filters[1..]);
      AuditLogService.KeptPairsAppend([(key, v)], filters[1..]);
    } else {
      DroppedValuesSendSameQuery(filters[1..], key, u, v);
      AuditLogService.KeptPairsAppend([filters[0]], Put(filters[1..], key, u));
      AuditLogService.KeptPairsAppend([filters[0]], Put(filters[1..], key, v));
    }
  }

  /** The dashboard's log-table state. */
  class Panel {
    var logs: seq<AuditLog>
    var stats: Option<Stats>
    var currentPage: int
    var pageSize: int
    var filters: seq<(string, Js)>

    constructor()
      ensures logs == [] && stats.None? && currentPage == 1 && pageSize == 20 && filters == EmptyFilters
    {
      logs := [];
      stats := None;
      currentPage := 1;
      pageSize := 20;
      filters := EmptyFilters;
    }

    /** `generateStatsFromLogs()`, counting with three loops as the three `reduce`s do. */
    method GenerateStatsFromLogs()
      modifies this
      ensures stats == (if old(logs) == [] then old(stats) else StatsFromLogs(old(logs)))
      ensures logs == old(logs) && currentPage == old(currentPage) && pageSize == old(pageSize)
      ensures filters == old(filters)
    {
      if |logs| == 0 {
        return;
      }
      var byAction := CountBy(logs, ActionField);
      var byStatus := CountBy(logs, StatusField);
      var byLevel := CountBy(logs, LevelField);
      var recent := logs[..if |logs| < RecentCount then |logs| else RecentCount];
      stats := Some(Stats(|logs|, byAction, byStatus, byLevel, recent));
    }

    /** `handleFilterChange(key, value)`: the search box passes its text, and a cleared
        `allowClear` dropdown passes `undefined`. */
    method HandleFilterChange(key: string, value: Js)
      modifies this
      ensures filters == Assign(old(filters), key, value)
      ensures logs == old(logs) && stats == old(stats) && currentPage == old(currentPage) && pageSize == old(pageSize)
    {
      filters := Assign(filters, key, value);
    }

    /** `handleSearch()`: back to the first page. */
    method HandleSearch()
      modifies this
      ensures currentPage == 1
      ensures logs == old(logs) && stats == old(stats) && pageSize == old(pageSize) && filters == old(filters)
    {
      currentPage := 1;
    }

    /** `handleReset()`: every filter empty and the first page. */
    method HandleReset()
      modifies this
      ensures filters == EmptyFilters && currentPage == 1
      ensures logs == old(logs) && stats == old(stats) && pageSize == old(pageSize)
    {
      filters := EmptyFilters;
      currentPage := 1;
    }

    /** The table's `onChange(page, size)`. */
    method PageChanged(page: int, size: int)
      modifies this
      ensures currentPage == page && pageSize == size
      ensures logs == old(logs) && stats == old(stats) && filters == old(filters)
    {
      currentPage := page;
      pageSize := size;
    }
  }
}
