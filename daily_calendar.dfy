/**
 * One calendar day: an ordered list of entries, a running total (refreshed
 * after every change) and a flag saying whether the day may still be edited.
 */
module DailyCalendar {
  import opened Wrappers
  import opened Responses
  import opened Collections
  import opened ActivityLogs

  predicate Known(activities: seq<Activity>, id: Uuid)
  {
    exists a :: a in activities && a.id == id
  }

  /** The first catalog activity carrying `id`. */
  function FindActivity(activities: seq<Activity>, id: Uuid): (r: Option<Activity>)
    ensures r.Some? <==> Known(activities, id)
    ensures r.Some? ==> r.value.id == id && (exists k :: 0 <= k < |activities| && activities[k] == r.value
                                               && forall j :: 0 <= j < k ==> activities[j].id != id)
  {
    if activities == [] then None
    else if activities[0].id == id then Some(activities[0])
    else
      var r := FindActivity(activities[1..], id);
      assert forall a :: a in activities[1..] ==> a in activities;
      assert r.Some? ==> (exists k :: 0 <= k < |activities| && activities[k] == r.value
                                     && forall j :: 0 <= j < k ==> activities[j].id != id) by {
        if r.Some? {
          var k :| 0 <= k < |activities[1..]| && activities[1..][k] == r.value
                   && forall j :: 0 <= j < k ==> activities[1..][j].id != id;
          assert activities[k + 1] == r.value;
        }
      }
      r
  }

  /** The name read through the force-unwrapped lookup of a known id. */
  function ActivityName(activities: seq<Activity>, id: Uuid): string
    requires Known(activities, id)
  {
    FindActivity(activities, id).value.name
  }

  /** The position of the first id equal to `id`. */
  function FirstIndex(ids: seq<Uuid>, id: Uuid): (r: Option<nat>)
    ensures r.None? <==> id !in ids
    ensures r.Some? ==> r.value < |ids| && ids[r.value] == id
                        && forall k :: 0 <= k < r.value ==> ids[k] != id
  {
    if ids == [] then None
    else if ids[0] == id then Some(0)
    else match FirstIndex(ids[1..], id)
      case None => None
      case Some(k) => Some(k + 1)
  }

  function Unselected(selected: seq<Uuid>): Activity -> bool
  {
    (a: Activity) => a.id !in selected
  }

  /** The catalog activities whose id is not among `selected`, in catalog order. */
  function Remaining(catalog: seq<Activity>, selected: seq<Uuid>): (r: seq<Activity>)
    ensures forall a :: a in r <==> a in catalog && a.id !in selected
  {
    Filter(catalog, Unselected(selected))
  }

  /** The remaining list keeps catalog order: it splits along any split of the catalog. */
  lemma RemainingKeepsOrder(c1: seq<Activity>, c2: seq<Activity>, selected: seq<Uuid>)
    ensures Remaining(c1 + c2, selected) == Remaining(c1, selected) + Remaining(c2, selected)
  {
    FilterAppend(c1, c2, Unselected(selected));
  }

  /** With nothing selected, the whole catalog remains. */
  lemma RemainingOfEmptyDay(catalog: seq<Activity>)
    ensures Remaining(catalog, []) == catalog
  {
    FilterKeepsAll(catalog, Unselected([]));
  }

  /** The day total after incrementing entry `i`, where `times` are the entries' times. */
  lemma {:induction false} DayTotalAfterIncrement(times: seq<nat>, i: nat)
    requires i < |times|
    ensures Sum(times[i := IncrementedTime(times[i], Sum(times))])
            == if Sum(times) + 1 <= QuartersPerDay then Sum(times) + 1 else Sum(times)
    ensures Sum(times) <= QuartersPerDay ==> Sum(times[i := IncrementedTime(times[i], Sum(times))]) <= QuartersPerDay
  {
    SumUpdate(times, i, IncrementedTime(times[i], Sum(times)));
  }

  /** The day total after decrementing entry `i`: one quarter less when that entry had one. */
  lemma {:induction false} DayTotalAfterDecrement(times: seq<nat>, i: nat)
    requires i < |times|
    ensures Sum(times[i := DecrementedTime(times[i])]) == if times[i] >= 1 then Sum(times) - 1 else Sum(times)
  {
    SumUpdate(times, i, DecrementedTime(times[i]));
  }

  function LogTimes(logs: seq<ActivityLog>): seq<nat>
  {
    seq(|logs|, i requires 0 <= i < |logs| => logs[i].time)
  }

  function Times(entries: seq<ActivityLogViewModel>): (r: seq<nat>)
    reads entries
    ensures |r| == |entries| && forall i :: 0 <= i < |r| ==> r[i] == entries[i].time
  {
    seq(|entries|, i requires 0 <= i < |entries| reads entries => entries[i].time)
  }

  /** Appending a new entry with no time keeps the entries distinct and valid, and their total. */
  lemma EntriesAppend(entries: seq<ActivityLogViewModel>, vm: ActivityLogViewModel)
    requires Distinct(entries) && vm !in entries
    requires forall e :: e in entries ==> e.Valid()
    requires vm.Valid() && vm.time == 0
    ensures Distinct(entries + [vm])
    ensures forall e :: e in entries + [vm] ==> e.Valid()
    ensures Sum(Times(entries + [vm])) == Sum(Times(entries))
  {
    AppendKeepsDistinct(entries, vm);
    var times := Times(entries);
    assert Times(entries + [vm]) == times + [0];
    assert (times + [0])[..|times|] == times;
  }

  /** Removing entry `k` keeps the others distinct and valid, and lowers their total by its time. */
  lemma EntriesRemove(entries: seq<ActivityLogViewModel>, k: nat)
    requires k < |entries| && Distinct(entries)
    requires forall e :: e in entries ==> e.Valid()
    ensures Distinct(entries[..k] + entries[k + 1..])
    ensures forall e :: e in entries[..k] + entries[k + 1..] ==> e.Valid()
    ensures Sum(Times(entries[..k] + entries[k + 1..])) == Sum(Times(entries)) - entries[k].time
  {
    RemoveKeepsDistinct(entries, k);
    TimesRemove(entries, k);
    SumRemove(Times(entries), k);
  }

  lemma TimesRemove(entries: seq<ActivityLogViewModel>, k: nat)
    requires k < |entries|
    ensures Times(entries[..k] + entries[k + 1..]) == Times(entries)[..k] + Times(entries)[k + 1..]
  {
    var r := entries[..k] + entries[k + 1..];
    assert forall i :: 0 <= i < |r| ==> r[i] == if i < k then entries[i] else entries[i + 1];
  }

  function Ids(entries: seq<ActivityLogViewModel>): (r: seq<Uuid>)
    reads entries
    ensures |r| == |entries| && forall i :: 0 <= i < |r| ==> r[i] == entries[i].ActivityId()
  {
    seq(|entries|, i requires 0 <= i < |entries| reads entries => entries[i].ActivityId())
  }

  function LogsOf(entries: seq<ActivityLogViewModel>, date: Date): (r: seq<ActivityLog>)
    reads entries
    ensures |r| == |entries|
  {
    seq(|entries|, i requires 0 <= i < |entries| reads entries =>
      ActivityLog(entries[i].ActivityId(), entries[i].time, date))
  }

  /** Entries built from `logs` carry their times and, when the logs are all of `day`, give them back. */
  lemma EntriesMatchLogs(entries: seq<ActivityLogViewModel>, logs: seq<ActivityLog>, day: Date)
    requires |entries| == |logs|
    requires forall k :: 0 <= k < |entries| ==> entries[k].log == logs[k]
    requires forall k :: 0 <= k < |entries| ==> entries[k].time == logs[k].time
    ensures Times(entries) == LogTimes(logs)
    ensures (forall l :: l in logs ==> l.date == day) ==> LogsOf(entries, day) == logs
  {
    if forall l :: l in logs ==> l.date == day {
      forall k | 0 <= k < |logs| ensures LogsOf(entries, day)[k] == logs[k] {
        assert logs[k] in logs;
      }
    }
  }

  /** One fresh entry per log, in log order, named after the log's activity. */
  method MakeEntries(logs: seq<ActivityLog>, activities: seq<Activity>) returns (es: seq<ActivityLogViewModel>)
    requires forall l :: l in logs ==> Known(activities, l.activityId)
    ensures |es| == |logs| && Distinct(es)
    ensures forall k :: 0 <= k < |es| ==> fresh(es[k])
    ensures forall k :: 0 <= k < |es| ==> es[k].log == logs[k]
    ensures forall k :: 0 <= k < |es| ==> es[k].time == logs[k].time
    ensures forall e :: e in es ==> e.Valid()
    ensures forall k :: 0 <= k < |es| ==> es[k].name == ActivityName(activities, logs[k].activityId)
  {
    es := [];
    var i := 0;
    while i < |logs|
      invariant 0 <= i <= |logs|
      invariant |es| == i && Distinct(es)
      invariant forall k :: 0 <= k < i ==> fresh(es[k])
      invariant forall k :: 0 <= k < i ==> es[k].log == logs[k]
      invariant forall k :: 0 <= k < i ==> es[k].time == logs[k].time
      invariant forall e :: e in es ==> e.Valid()
      invariant forall k :: 0 <= k < i ==> es[k].name == ActivityName(activities, logs[k].activityId)
    {
      assert logs[i] in logs;
      var name := ActivityName(activities, logs[i].activityId);
      var vm := new ActivityLogViewModel(logs[i], name);
      es := es + [vm];
      i := i + 1;
    }
  }

  class UserDailyCalendarViewModel {
    const day: Date
    const activities: seq<Activity>
    var dataSource: seq<ActivityLogViewModel>
    var total: nat
    var isActive: bool

    /** Entries are distinct objects, each in step with its log, and `total` is their sum. */
    ghost predicate Valid()
      reads this`dataSource, this`total, dataSource
    {
      && Distinct(dataSource)
      && (forall e :: e in dataSource ==> e.Valid())
      && total == Sum(Times(dataSource))
    }

    /** One log per entry, in entry order, dated with this day. */
    function GetLogs(): (r: seq<ActivityLog>)
      reads this`dataSource, dataSource
      ensures |r| == |dataSource|
      ensures forall i :: 0 <= i < |r| ==> r[i] == ActivityLog(dataSource[i].ActivityId(), dataSource[i].time, day)
    {
      LogsOf(dataSource, day)
    }

    function RemainingActivities(): seq<Activity>
      reads this`dataSource, dataSource
    {
      Remaining(activities, Ids(dataSource))
    }

    /**
     * One entry per log, in log order. The activity of every log must be in
     * the catalog: the name lookup is force-unwrapped.
     */
    constructor (day: Date, logs: seq<ActivityLog>, activities: seq<Activity>)
      requires forall l :: l in logs ==> Known(activities, l.activityId)
      ensures Valid() && isActive
      ensures this.day == day && this.activities == activities
      ensures |dataSource| == |logs|
      ensures forall i :: 0 <= i < |logs| ==> fresh(dataSource[i])
      ensures forall i :: 0 <= i < |logs| ==> dataSource[i].log == logs[i]
      ensures forall i :: 0 <= i < |logs| ==> dataSource[i].time == logs[i].time
      ensures forall i :: 0 <= i < |logs| ==> dataSource[i].name == ActivityName(activities, logs[i].activityId)
      ensures total == Sum(LogTimes(logs))
      ensures (forall l :: l in logs ==> l.date == day) ==> GetLogs() == logs
    {
      var entries := MakeEntries(logs, activities);
      EntriesMatchLogs(entries, logs, day);
      this.day := day;
      this.activities := activities;
      dataSource := entries;
      total := Sum(LogTimes(logs));
      isActive := true;
    }

    /** Recomputes the running total from the entries. */
    method Refresh()
      modifies this`total
      ensures total == Sum(Times(dataSource))
    {
      total := Sum(Times(dataSource));
    }

    /** Appends an entry with no time for `activity`; earlier entries and the total are untouched. */
    method AddActivity(activity: Activity)
      requires Valid()
      modifies this`dataSource, this`total
      ensures Valid()
      ensures |dataSource| == |old(dataSource)| + 1
      ensures dataSource[..|old(dataSource)|] == old(dataSource)
      ensures fresh(dataSource[|dataSource| - 1])
      ensures dataSource[|dataSource| - 1].log == ActivityLog(activity.id, 0, day)
      ensures dataSource[|dataSource| - 1].name == activity.name
      ensures dataSource[|dataSource| - 1].time == 0
      ensures total == old(total)
      ensures isActive == old(isActive)
    {
      var log := ActivityLog(activity.id, 0, day);
      var vm := new ActivityLogViewModel(log, activity.name);
      EntriesAppend(dataSource, vm);
      dataSource := dataSource + [vm];
      Refresh();
    }

    /** Removes the first entry whose activity is that of `log`; does nothing when there is none. */
    method RemoveLog(log: ActivityLogViewModel)
      requires Valid()
      modifies this`dataSource, this`total
      ensures Valid()
      ensures isActive == old(isActive)
      ensures FirstIndex(old(Ids(dataSource)), log.ActivityId()).None? ==>
                dataSource == old(dataSource) && total == old(total)
      ensures FirstIndex(old(Ids(dataSource)), log.ActivityId()).Some? ==>
                var k := FirstIndex(old(Ids(dataSource)), log.ActivityId()).value;
                dataSource == old(dataSource[..k] + dataSource[k + 1..])
                && total == old(total) - old(dataSource[k].time)
    {
      var found := FirstIndex(Ids(dataSource), log.ActivityId());
      if found.None? {
        return;
      }
      RemoveAt(found.value);
    }

    /** Drops entry `k` and refreshes the total. */
    method RemoveAt(k: nat)
      requires Valid() && k < |dataSource|
      modifies this`dataSource, this`total
      ensures Valid()
      ensures dataSource == old(dataSource[..k] + dataSource[k + 1..])
      ensures total == old(total) - old(dataSource[k].time)
    {
      EntriesRemove(dataSource, k);
      dataSource := dataSource[..k] + dataSource[k + 1..];
      Refresh();
    }

    /** The entry's `increment`, reading this day's total, followed by the refresh it triggers. */
    method IncrementAt(i: nat)
      requires Valid() && i < |dataSource|
      modifies this`total, dataSource[i]
      ensures Valid()
      ensures dataSource == old(dataSource)
      ensures dataSource[i].time == IncrementedTime(old(dataSource[i].time), old(total))
      ensures dataSource[i].log == old(dataSource[i].log).(time := dataSource[i].time)
      ensures total == if old(total) + 1 <= QuartersPerDay then old(total) + 1 else old(total)
      ensures old(total) <= QuartersPerDay ==> total <= QuartersPerDay
    {
      ghost var times := Times(dataSource);
      dataSource[i].Increment(total);
      Refresh();
      assert Times(dataSource) == times[i := IncrementedTime(times[i], Sum(times))];
      DayTotalAfterIncrement(times, i);
    }

    /** The entry's `decrement` followed by the refresh it triggers. */
    method DecrementAt(i: nat)
      requires Valid() && i < |dataSource|
      modifies this`total, dataSource[i]
      ensures Valid()
      ensures dataSource == old(dataSource)
      ensures dataSource[i].time == DecrementedTime(old(dataSource[i].time))
      ensures dataSource[i].log == old(dataSource[i].log).(time := dataSource[i].time)
      ensures total == if old(dataSource[i].time) >= 1 then old(total) - 1 else old(total)
    {
      ghost var times := Times(dataSource);
      dataSource[i].Decrement();
      Refresh();
      assert Times(dataSource) == times[i := DecrementedTime(times[i])];
      DayTotalAfterDecrement(times, i);
    }
  }
}
