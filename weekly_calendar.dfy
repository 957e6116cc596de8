/**
 * One week: a day per calendar date in ascending order, a total and a
 * completeness flag derived from the days, and the action rule derived from
 * the week's status. Saving and submitting send a call and, on success only,
 * move the status forward.
 */
module WeeklyCalendarView {
  import opened Wrappers
  import opened Responses
  import opened Requests
  import opened Collections
  import opened Sorting
  import opened ActivityLogs
  import opened DailyCalendar

  /** A week of the calendar with its decoded status. */
  datatype WeeklyCalendarWithStatus = WeeklyCalendarWithStatus(calendar: WeeklyCalendar, status: WeekStatus)

  /** What the week screen offers. */
  datatype WeekActionRules = NoActionToTake | CanBeSaved | CanBeSubmitted | IsLocked

  /** The rule `refresh` leaves, given the status, completeness and the rule it replaces. */
  function NextRule(status: WeekStatus, isComplete: bool, previous: WeekActionRules): WeekActionRules
  {
    match status
    case New => CanBeSaved
    case Submitted => IsLocked
    case Saved => if isComplete then CanBeSubmitted else previous
  }

  /** The rule table: New can be saved, Submitted is locked, Saved can be submitted once complete and otherwise keeps its rule. */
  lemma RuleTable(isComplete: bool, previous: WeekActionRules)
    ensures NextRule(New, isComplete, previous) == CanBeSaved
    ensures NextRule(Submitted, isComplete, previous) == IsLocked
    ensures NextRule(Saved, true, previous) == CanBeSubmitted
    ensures NextRule(Saved, false, previous) == previous
  {
  }

  /** Refreshing twice sets the same rule as refreshing once. */
  lemma RefreshRuleIdempotent(status: WeekStatus, isComplete: bool, previous: WeekActionRules)
    ensures NextRule(status, isComplete, NextRule(status, isComplete, previous)) == NextRule(status, isComplete, previous)
  {
  }

  /** The week's dates, earliest first. */
  function SortedDays(days: seq<Date>): seq<Date>
  {
    Sort(days, DateBefore)
  }

  /** The sorted dates are exactly the week's dates, in non-decreasing order. */
  lemma SortedDaysAscending(days: seq<Date>)
    ensures multiset(SortedDays(days)) == multiset(days)
    ensures forall i, j :: 0 <= i < j < |SortedDays(days)| ==> DateLeq(SortedDays(days)[i], SortedDays(days)[j])
  {
    DateBeforeIsStrictWeakOrder();
    SortSorted(days, DateBefore);
  }

  /** Sorting the dates keeps exactly the same dates. */
  lemma SortedDaysSameDates(days: seq<Date>)
    ensures forall d :: d in SortedDays(days) <==> d in days
  {
    forall d ensures d in SortedDays(days) <==> d in days {
      SortMembers(days, DateBefore, d);
    }
  }

  function OnDate(day: Date): ActivityLog -> bool
  {
    (l: ActivityLog) => l.date == day
  }

  /** The logs dated `day`, in their original order. */
  function LogsOn(logs: seq<ActivityLog>, day: Date): seq<ActivityLog>
  {
    Filter(logs, OnDate(day))
  }

  /**
   * A week is complete exactly when every day is full, provided no day
   * holds more than a full day (which increments never exceed).
   */
  lemma {:induction false} CompleteIffEveryDayFull(dayTotals: seq<nat>)
    requires forall i :: 0 <= i < |dayTotals| ==> dayTotals[i] <= QuartersPerDay
    ensures Sum(dayTotals) == QuartersPerDay * |dayTotals| <==> forall i :: 0 <= i < |dayTotals| ==> dayTotals[i] == QuartersPerDay
  {
    if dayTotals != [] {
      var n := |dayTotals| - 1;
      CompleteIffEveryDayFull(dayTotals[..n]);
      SumAtMost(dayTotals[..n]);
      assert forall i :: 0 <= i < n ==> dayTotals[..n][i] == dayTotals[i];
    }
  }

  lemma {:induction false} SumAtMost(xs: seq<nat>)
    requires forall i :: 0 <= i < |xs| ==> xs[i] <= QuartersPerDay
    ensures Sum(xs) <= QuartersPerDay * |xs|
  {
    if xs != [] {
      SumAtMost(xs[..|xs| - 1]);
    }
  }

  /** The request items for one day's logs, stamped with the date of its first log. */
  function ItemsOf(logs: seq<ActivityLog>): seq<SaveActivity>
    requires logs != []
  {
    var date := logs[0].date;
    seq(|logs|, j requires 0 <= j < |logs| =>
      SaveActivity(date.day, date.month, date.year, Log(logs[j].time, logs[j].activityId)))
  }

  function ItemsPerDay(logsPerDay: seq<seq<ActivityLog>>): seq<seq<SaveActivity>>
    requires forall i :: 0 <= i < |logsPerDay| ==> logsPerDay[i] != []
  {
    seq(|logsPerDay|, i requires 0 <= i < |logsPerDay| && logsPerDay[i] != [] => ItemsOf(logsPerDay[i]))
  }

  /** The body `save` sends, given each day's logs in day order. */
  function SaveRequest(logsPerDay: seq<seq<ActivityLog>>): Option<SaveActivities>
  {
    if |logsPerDay| == 0 || exists i :: 0 <= i < |logsPerDay| && logsPerDay[i] == [] then None
    else Some(SaveActivities(Flatten(ItemsPerDay(logsPerDay))))
  }

  /** A request is built exactly when there is a day and every day has an entry. */
  lemma SaveRequestBuiltIff(logsPerDay: seq<seq<ActivityLog>>)
    ensures SaveRequest(logsPerDay).Some? <==> |logsPerDay| > 0 && forall i :: 0 <= i < |logsPerDay| ==> logsPerDay[i] != []
  {
  }

  /** The items of one more day follow those of the days before it. */
  lemma ItemsStep(logsPerDay: seq<seq<ActivityLog>>, i: nat)
    requires i < |logsPerDay| && forall k :: 0 <= k <= i ==> logsPerDay[k] != []
    ensures Flatten(ItemsPerDay(logsPerDay[..i + 1])) == Flatten(ItemsPerDay(logsPerDay[..i])) + ItemsOf(logsPerDay[i])
  {
    var items := ItemsPerDay(logsPerDay[..i + 1]);
    assert items[..i] == ItemsPerDay(logsPerDay[..i]);
    assert items[i] == ItemsOf(logsPerDay[i]);
  }

  lemma {:induction false} OffsetsAgree<T, U>(xss: seq<seq<T>>, yss: seq<seq<U>>, i: nat)
    requires |xss| == |yss| && i <= |xss|
    requires forall k :: 0 <= k < |xss| ==> |xss[k]| == |yss[k]|
    ensures Offset(xss, i) == Offset(yss, i)
  {
    if i > 0 {
      OffsetsAgree(xss, yss, i - 1);
    }
  }

  /**
   * The request lists every entry exactly once, day by day and entry by
   * entry: entry `j` of day `i` is item `Offset(logsPerDay, i) + j`, carrying
   * the day's date and the entry's time and activity.
   */
  lemma SaveRequestListsEveryEntry(logsPerDay: seq<seq<ActivityLog>>, i: nat, j: nat)
    requires SaveRequest(logsPerDay).Some?
    requires i < |logsPerDay| && j < |logsPerDay[i]|
    ensures |SaveRequest(logsPerDay).value.days| == Offset(logsPerDay, |logsPerDay|)
    ensures Offset(logsPerDay, i) + j < |SaveRequest(logsPerDay).value.days|
    ensures var date := logsPerDay[i][0].date;
            var log := logsPerDay[i][j];
            SaveRequest(logsPerDay).value.days[Offset(logsPerDay, i) + j]
            == SaveActivity(date.day, date.month, date.year, Log(log.time, log.activityId))
  {
    var items := ItemsPerDay(logsPerDay);
    FlattenAt(items, i, j);
    OffsetsAgree(items, logsPerDay, i);
    OffsetsAgree(items, logsPerDay, |logsPerDay|);
  }

  function DayTotals(days: seq<UserDailyCalendarViewModel>): (r: seq<nat>)
    reads days
    ensures |r| == |days| && forall i :: 0 <= i < |r| ==> r[i] == days[i].total
  {
    seq(|days|, i requires 0 <= i < |days| reads days => days[i].total)
  }

  /** The entries of the given days. */
  ghost function EntriesOf(days: seq<UserDailyCalendarViewModel>): set<object>
    reads days
  {
    set d, e | d in days && e in d.dataSource :: e
  }

  function LogsOfDays(days: seq<UserDailyCalendarViewModel>): (r: seq<seq<ActivityLog>>)
    reads days, EntriesOf(days)
    ensures |r| == |days| && forall i :: 0 <= i < |r| ==> r[i] == days[i].GetLogs()
  {
    if days == [] then []
    else
      assert forall e :: e in days[0].dataSource ==> e in EntriesOf(days);
      assert EntriesOf(days[1..]) <= EntriesOf(days);
      [days[0].GetLogs()] + LogsOfDays(days[1..])
  }

  /** What the week constructor makes of one date. */
  ghost predicate BuiltDay(d: UserDailyCalendarViewModel, day: Date, logs: seq<ActivityLog>, activities: seq<Activity>)
    reads d`dataSource, d`total, d.dataSource
  {
    && d.Valid()
    && d.day == day && d.activities == activities
    && LogsOf(d.dataSource, day) == LogsOn(logs, day)
  }

  /** A day whose entry list, total and entries are unchanged keeps its validity and its logs. */
  twostate lemma DayKept(d: UserDailyCalendarViewModel)
    requires unchanged(d`dataSource, d`total)
    requires forall e :: e in d.dataSource ==> unchanged(e)
    ensures d.Valid() == old(d.Valid()) && d.GetLogs() == old(d.GetLogs())
  {
    var es := d.dataSource;
    assert forall e :: e in es ==> e.time == old(e.time) && e.log == old(e.log);
    assert forall i :: 0 <= i < |es| ==> es[i].time == old(es[i].time) && es[i].log == old(es[i].log);
    assert Times(es) == old(Times(es));
    assert LogsOf(es, d.day) == old(LogsOf(es, d.day));
  }

  /** A fresh, active day for `day` holding the logs of that date. */
  method MakeDay(day: Date, logs: seq<ActivityLog>, activities: seq<Activity>) returns (daily: UserDailyCalendarViewModel)
    requires forall l :: l in logs && l.date == day ==> Known(activities, l.activityId)
    ensures fresh(daily) && daily.isActive
    ensures BuiltDay(daily, day, logs, activities)
  {
    var logsForTheDay := LogsOn(logs, day);
    daily := new UserDailyCalendarViewModel(day, logsForTheDay, activities);
  }

  /** One fresh day per date, in the given order, each holding the logs of its date. */
  method MakeDays(days: seq<Date>, logs: seq<ActivityLog>, activities: seq<Activity>)
    returns (ds: seq<UserDailyCalendarViewModel>)
    requires forall l :: l in logs && l.date in days ==> Known(activities, l.activityId)
    ensures |ds| == |days|
    ensures forall k :: 0 <= k < |ds| ==> fresh(ds[k])
    ensures forall k :: 0 <= k < |ds| ==> ds[k].isActive
    ensures forall k :: 0 <= k < |ds| ==> BuiltDay(ds[k], days[k], logs, activities)
  {
    ds := [];
    var i := 0;
    while i < |days|
      invariant 0 <= i <= |days|
      invariant |ds| == i
      invariant forall k :: 0 <= k < i ==> fresh(ds[k])
      invariant forall k :: 0 <= k < i ==> ds[k].isActive
      invariant forall k :: 0 <= k < i ==> BuiltDay(ds[k], days[k], logs, activities)
    {
      var daily := MakeDay(days[i], logs, activities);
      ds := ds + [daily];
      i := i + 1;
    }
  }

  class UserWeeklyCalendarViewModel {
    var weeklyCalendarWithStatus: WeeklyCalendarWithStatus
    var dataSource: seq<UserDailyCalendarViewModel>
    var timeTrackingState: WeekActionRules
    var total: nat
    var isComplete: bool

    /** One day per date, earliest first; a locked week has no active day. */
    ghost predicate Valid()
      reads this, dataSource
    {
      && |dataSource| == |weeklyCalendarWithStatus.calendar.days|
      && (forall i :: 0 <= i < |dataSource| ==> dataSource[i].day == SortedDays(weeklyCalendarWithStatus.calendar.days)[i])
      && (timeTrackingState == IsLocked ==> forall d :: d in dataSource ==> !d.isActive)
    }

    /** `total`, `isComplete` and the rule are as `refresh` leaves them, `previous` being the rule it replaced. */
    ghost predicate RefreshedFrom(previous: WeekActionRules)
      reads this, dataSource
    {
      && total == Sum(DayTotals(dataSource))
      && isComplete == (total == QuartersPerDay * |weeklyCalendarWithStatus.calendar.days|)
      && timeTrackingState == NextRule(weeklyCalendarWithStatus.status, isComplete, previous)
    }

    /** Each day's logs, in day order. */
    function LogsPerDay(): (r: seq<seq<ActivityLog>>)
      reads this, dataSource, EntriesOf(dataSource)
      ensures |r| == |dataSource| && forall i :: 0 <= i < |r| ==> r[i] == dataSource[i].GetLogs()
    {
      LogsOfDays(dataSource)
    }

    /**
     * One day per date of the week, earliest first, each holding exactly the
     * logs dated that day. The activity of every such log must be in the catalog.
     */
    constructor (weekWithStatus: WeeklyCalendarWithStatus, logs: seq<ActivityLog>, activities: seq<Activity>)
      requires forall l :: l in logs && l.date in weekWithStatus.calendar.days ==> Known(activities, l.activityId)
      ensures Valid() && RefreshedFrom(NoActionToTake)
      ensures weeklyCalendarWithStatus == weekWithStatus
      ensures forall i :: 0 <= i < |dataSource| ==>
                && fresh(dataSource[i])
                && BuiltDay(dataSource[i], dataSource[i].day, logs, activities)
                && dataSource[i].isActive == (weekWithStatus.status != Submitted)
    {
      weeklyCalendarWithStatus := weekWithStatus;
      dataSource := [];
      timeTrackingState := NoActionToTake;
      total := 0;
      isComplete := true;
      new;
      Populate(logs, activities);
      Refresh();
    }

    /** The loop of the constructor: one fresh day per date, earliest first. */
    method Populate(logs: seq<ActivityLog>, activities: seq<Activity>)
      requires forall l :: l in logs && l.date in weeklyCalendarWithStatus.calendar.days ==> Known(activities, l.activityId)
      requires timeTrackingState != IsLocked
      modifies this`dataSource
      ensures Valid()
      ensures forall i :: 0 <= i < |dataSource| ==> fresh(dataSource[i])
      ensures forall i :: 0 <= i < |dataSource| ==> dataSource[i].isActive
      ensures forall i :: 0 <= i < |dataSource| ==> BuiltDay(dataSource[i], dataSource[i].day, logs, activities)
    {
      var days := SortedDays(weeklyCalendarWithStatus.calendar.days);
      SortedDaysSameDates(weeklyCalendarWithStatus.calendar.days);
      var ds := MakeDays(days, logs, activities);
      dataSource := ds;
    }

    /** The assignment to the rule together with its observer, which deactivates every day on locking. */
    method SetTimeTrackingState(rule: WeekActionRules)
      modifies this`timeTrackingState, dataSource`isActive
      ensures timeTrackingState == rule
      ensures forall d :: d in dataSource ==> d.isActive == (rule != IsLocked && old(d.isActive))
      ensures forall d :: d in dataSource ==> d.total == old(d.total) && d.dataSource == old(d.dataSource)
      ensures forall d :: d in dataSource ==> forall e :: e in d.dataSource ==> unchanged(e)
    {
      timeTrackingState := rule;
      if rule == IsLocked {
        var i := 0;
        while i < |dataSource|
          invariant 0 <= i <= |dataSource|
          invariant timeTrackingState == rule
          invariant forall k :: 0 <= k < i ==> !dataSource[k].isActive
          invariant forall d :: d in dataSource ==> d.total == old(d.total) && d.dataSource == old(d.dataSource)
          invariant forall d :: d in dataSource ==> forall e :: e in d.dataSource ==> unchanged(e)
        {
          dataSource[i].isActive := false;
          i := i + 1;
        }
      }
    }

    /** Recomputes the total and completeness from the days, then the rule from the status. */
    method Refresh()
      requires Valid()
      modifies this`total, this`isComplete, this`timeTrackingState, dataSource`isActive
      ensures Valid() && RefreshedFrom(old(timeTrackingState))
      ensures forall d :: d in dataSource ==>
                d.isActive == (weeklyCalendarWithStatus.status != Submitted && old(d.isActive))
      ensures forall d :: d in dataSource ==> d.total == old(d.total) && d.dataSource == old(d.dataSource)
      ensures forall d :: d in dataSource ==> d.Valid() == old(d.Valid()) && d.GetLogs() == old(d.GetLogs())
    {
      var totals := DayTotals(dataSource);
      total := Sum(totals);
      isComplete := total == QuartersPerDay * |weeklyCalendarWithStatus.calendar.days|;
      match weeklyCalendarWithStatus.status {
        case New =>
          SetTimeTrackingState(CanBeSaved);
        case Submitted =>
          SetTimeTrackingState(IsLocked);
        case Saved =>
          if isComplete {
            SetTimeTrackingState(CanBeSubmitted);
          }
      }
      assert DayTotals(dataSource) == totals;
      forall d | d in dataSource ensures d.Valid() == old(d.Valid()) && d.GetLogs() == old(d.GetLogs()) {
        DayKept(d);
      }
    }

    /** The request half of `save`: one item per entry, day by day; nothing if a day has no entry. */
    method BuildSaveRequest() returns (request: Option<SaveActivities>)
      ensures request == SaveRequest(LogsPerDay())
    {
      if |dataSource| == 0 {
        return None;
      }
      ghost var ls := LogsPerDay();
      var a: seq<SaveActivity> := [];
      var i := 0;
      while i < |dataSource|
        invariant 0 <= i <= |dataSource|
        invariant forall k :: 0 <= k < i ==> ls[k] != []
        invariant a == Flatten(ItemsPerDay(ls[..i]))
      {
        var logsToSave := dataSource[i].GetLogs();
        if |logsToSave| == 0 {
          assert ls[i] == [];
          return None;
        }
        var date := logsToSave[0].date;
        var items := seq(|logsToSave|, j requires 0 <= j < |logsToSave| =>
          SaveActivity(date.day, date.month, date.year, Log(logsToSave[j].time, logsToSave[j].activityId)));
        assert items == ItemsOf(ls[i]);
        ItemsStep(ls, i);
        a := a + items;
        i := i + 1;
      }
      assert ls[..i] == ls;
      LogsKept();
      return Some(SaveActivities(a));
    }

    /** What a delivered save or submission does: record the new status, then refresh. */
    method ApplyStatus(status: WeekStatus)
      requires Valid()
      modifies this`weeklyCalendarWithStatus, this`total, this`isComplete, this`timeTrackingState, dataSource`isActive
      ensures Valid()
      ensures weeklyCalendarWithStatus == old(weeklyCalendarWithStatus).(status := status)
      ensures RefreshedFrom(old(timeTrackingState))
      ensures forall d :: d in dataSource ==> d.isActive == (status != Submitted && old(d.isActive))
      ensures forall d :: d in dataSource ==> d.total == old(d.total) && d.dataSource == old(d.dataSource)
    {
      weeklyCalendarWithStatus := weeklyCalendarWithStatus.(status := status);
      Refresh();
    }

    /**
     * Sends the request, if one can be built, with the week's first date;
     * only a delivered save sets the status to Saved and refreshes.
     */
    method Save(outcome: SyncOutcome) returns (call: Option<ApiCall>)
      requires Valid()
      modifies this`weeklyCalendarWithStatus, this`total, this`isComplete, this`timeTrackingState, dataSource`isActive
      ensures Valid()
      ensures call == match old(SaveRequest(LogsPerDay()))
                      case None => None
                      case Some(body) => Some(SaveCall(dataSource[0].day, body))
      ensures forall d :: d in dataSource ==> d.total == old(d.total) && d.dataSource == old(d.dataSource)
      ensures forall d :: d in dataSource ==> d.isActive == old(d.isActive)
      ensures call.Some? && outcome.Delivered? ==>
                && weeklyCalendarWithStatus == old(weeklyCalendarWithStatus).(status := Saved)
                && RefreshedFrom(old(timeTrackingState))
      ensures !(call.Some? && outcome.Delivered?) ==>
                && weeklyCalendarWithStatus == old(weeklyCalendarWithStatus)
                && total == old(total) && isComplete == old(isComplete)
                && timeTrackingState == old(timeTrackingState)
    {
      var request := BuildSaveRequest();
      LogsKept();
      if request.None? {
        return None;
      }
      call := Send(SaveCall(dataSource[0].day, request.value), Saved, outcome);
    }

    /** A call that changes no day and no entry leaves every day's logs as they were. */
    twostate lemma LogsKept()
      requires unchanged(this) && forall d :: d in dataSource ==> unchanged(d)
      requires forall d :: d in dataSource ==> forall e :: e in d.dataSource ==> unchanged(e)
      ensures LogsPerDay() == old(LogsPerDay())
    {
      forall i | 0 <= i < |dataSource| ensures dataSource[i].GetLogs() == old(dataSource[i].GetLogs()) {
        assert dataSource[i] in dataSource;
        DayKept(dataSource[i]);
      }
    }

    /** Sends `call`; only a delivered call records `status` and refreshes. */
    method Send(call: ApiCall, status: WeekStatus, outcome: SyncOutcome) returns (sent: Option<ApiCall>)
      requires Valid()
      modifies this`weeklyCalendarWithStatus, this`total, this`isComplete, this`timeTrackingState, dataSource`isActive
      ensures Valid() && sent == Some(call)
      ensures forall d :: d in dataSource ==> d.total == old(d.total) && d.dataSource == old(d.dataSource)
      ensures outcome.Delivered? ==>
                && weeklyCalendarWithStatus == old(weeklyCalendarWithStatus).(status := status)
                && RefreshedFrom(old(timeTrackingState))
                && forall d :: d in dataSource ==> d.isActive == (status != Submitted && old(d.isActive))
      ensures !outcome.Delivered? ==>
                && weeklyCalendarWithStatus == old(weeklyCalendarWithStatus)
                && total == old(total) && isComplete == old(isComplete)
                && timeTrackingState == old(timeTrackingState)
                && forall d :: d in dataSource ==> d.isActive == old(d.isActive)
    {
      sent := Some(call);
      if outcome.Delivered? {
        ApplyStatus(status);
      }
    }

    /**
     * Sends the submission for the month and year of the week's first date;
     * only a delivered submission sets the status to Submitted and refreshes,
     * which locks the week.
     */
    method Submit(outcome: SyncOutcome) returns (call: Option<ApiCall>)
      requires Valid()
      modifies this`weeklyCalendarWithStatus, this`total, this`isComplete, this`timeTrackingState, dataSource`isActive
      ensures Valid()
      ensures call == if |dataSource| == 0 then None
                      else Some(SubmitCall(dataSource[0].day.month, dataSource[0].day.year,
                                           old(weeklyCalendarWithStatus.calendar.weekNumber)))
      ensures forall d :: d in dataSource ==> d.total == old(d.total) && d.dataSource == old(d.dataSource)
      ensures call.Some? && outcome.Delivered? ==>
                && weeklyCalendarWithStatus == old(weeklyCalendarWithStatus).(status := Submitted)
                && RefreshedFrom(old(timeTrackingState))
                && timeTrackingState == IsLocked
                && forall d :: d in dataSource ==> !d.isActive
      ensures !(call.Some? && outcome.Delivered?) ==>
                && weeklyCalendarWithStatus == old(weeklyCalendarWithStatus)
                && total == old(total) && isComplete == old(isComplete)
                && timeTrackingState == old(timeTrackingState)
                && forall d :: d in dataSource ==> d.isActive == old(d.isActive)
    {
      if |dataSource| == 0 {
        return None;
      }
      var oneDate := dataSource[0].day;
      call := Send(SubmitCall(oneDate.month, oneDate.year, weeklyCalendarWithStatus.calendar.weekNumber), Submitted, outcome);
    }
  }
}
