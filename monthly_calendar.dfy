/**
 * One month: the weeks of the backend's calendar that have dates, each
 * paired with its decoded status, sorted, and each handed the month's logs
 * that fall within its dates. Any failure on the way leaves the month with
 * no weeks at all.
 */
module MonthlyCalendarView {
  import opened Wrappers
  import opened Responses
  import opened ApiErrors
  import opened Collections
  import opened Sorting
  import opened DailyCalendar
  import opened WeeklyCalendarView

  const StatusNotFound: string := "Can't find status for week !"
  const StatusNotDecoded: string := "something else"

  function HasDays(): WeeklyCalendar -> bool
  {
    (w: WeeklyCalendar) => |w.days| > 0
  }

  /** The weeks that list at least one date, in calendar order. */
  function NonEmptyWeeks(weeks: seq<WeeklyCalendar>): (r: seq<WeeklyCalendar>)
    ensures forall w :: w in r <==> w in weeks && |w.days| > 0
  {
    Filter(weeks, HasDays())
  }

  /** Dropping the empty weeks keeps calendar order: it splits along any split of the weeks. */
  lemma NonEmptyWeeksKeepOrder(w1: seq<WeeklyCalendar>, w2: seq<WeeklyCalendar>)
    ensures NonEmptyWeeks(w1 + w2) == NonEmptyWeeks(w1) + NonEmptyWeeks(w2)
  {
    FilterAppend(w1, w2, HasDays());
  }

  /** The first status whose week number is `weekNumber`; the week year is not looked at. */
  function FindStatus(weekNumber: int, states: seq<WeekState>): (r: Option<WeekState>)
    ensures r.None? <==> forall k :: 0 <= k < |states| ==> states[k].weekNumber != weekNumber
    ensures r.Some? ==> exists k :: 0 <= k < |states| && states[k] == r.value && r.value.weekNumber == weekNumber
                                    && forall j :: 0 <= j < k ==> states[j].weekNumber != weekNumber
  {
    if states == [] then None
    else if states[0].weekNumber == weekNumber then Some(states[0])
    else
      var r := FindStatus(weekNumber, states[1..]);
      assert r.Some? ==> exists k :: 0 <= k < |states| && states[k] == r.value && r.value.weekNumber == weekNumber
                                     && forall j :: 0 <= j < k ==> states[j].weekNumber != weekNumber by {
        if r.Some? {
          var k :| 0 <= k < |states[1..]| && states[1..][k] == r.value && r.value.weekNumber == weekNumber
                   && forall j :: 0 <= j < k ==> states[1..][j].weekNumber != weekNumber;
          assert states[k + 1] == r.value;
        }
      }
      r
  }

  /** The status one week gets, or the parsing error that aborts the month. */
  function StatusOf(week: WeeklyCalendar, states: seq<WeekState>): Result<WeekStatus, OagunthError>
  {
    match FindStatus(week.weekNumber, states)
    case None => Failure(Parsing(StatusNotFound))
    case Some(rawStatus) =>
      match GetStatusEnum(rawStatus)
      case None => Failure(Parsing(StatusNotDecoded))
      case Some(status) => Success(status)
  }

  /** Weeks with the same number get the same status, whatever their years and dates. */
  lemma StatusIgnoresWeekYear(a: WeeklyCalendar, b: WeeklyCalendar, states: seq<WeekState>)
    requires a.weekNumber == b.weekNumber
    ensures StatusOf(a, states) == StatusOf(b, states)
  {
  }

  /** A week whose first matching status reads "Saved" cannot be decoded. */
  lemma SavedStatusIsRejected(week: WeeklyCalendar, states: seq<WeekState>)
    requires FindStatus(week.weekNumber, states).Some?
    requires FindStatus(week.weekNumber, states).value.status == "Saved"
    ensures StatusOf(week, states) == Failure(Parsing(StatusNotDecoded))
  {
  }

  /** Each week paired with its status, in order, or the error of the first week without one. */
  function Pairing(weeks: seq<WeeklyCalendar>, states: seq<WeekState>): Result<seq<WeeklyCalendarWithStatus>, OagunthError>
  {
    if weeks == [] then Success([])
    else
      match Pairing(weeks[..|weeks| - 1], states)
      case Failure(e) => Failure(e)
      case Success(prefix) =>
        match StatusOf(weeks[|weeks| - 1], states)
        case Failure(e) => Failure(e)
        case Success(status) => Success(prefix + [WeeklyCalendarWithStatus(weeks[|weeks| - 1], status)])
  }

  /**
   * Pairing succeeds exactly when every week has a status, and then pairs
   * week `i` with its status at position `i`; otherwise its error is that of
   * the first week without one.
   */
  lemma {:induction false} PairingSpec(weeks: seq<WeeklyCalendar>, states: seq<WeekState>)
    ensures Pairing(weeks, states).Success? <==> forall i :: 0 <= i < |weeks| ==> StatusOf(weeks[i], states).Success?
    ensures Pairing(weeks, states).Success? ==>
              && |Pairing(weeks, states).value| == |weeks|
              && forall i :: 0 <= i < |weeks| ==>
                   Pairing(weeks, states).value[i] == WeeklyCalendarWithStatus(weeks[i], StatusOf(weeks[i], states).value)
    ensures Pairing(weeks, states).Failure? ==>
              exists i :: 0 <= i < |weeks| && StatusOf(weeks[i], states) == Failure(Pairing(weeks, states).error)
                          && forall j :: 0 <= j < i ==> StatusOf(weeks[j], states).Success?
  {
    if weeks != [] {
      var n := |weeks| - 1;
      PairingSpec(weeks[..n], states);
      assert forall i :: 0 <= i < n ==> weeks[..n][i] == weeks[i];
      var prefix := Pairing(weeks[..n], states);
      if prefix.Failure? {
        var i :| 0 <= i < n && StatusOf(weeks[..n][i], states) == Failure(prefix.error)
                 && forall j :: 0 <= j < i ==> StatusOf(weeks[..n][j], states).Success?;
        assert StatusOf(weeks[i], states) == Failure(Pairing(weeks, states).error);
      } else if StatusOf(weeks[n], states).Failure? {
        assert forall j :: 0 <= j < n ==> StatusOf(weeks[j], states).Success?;
      }
    }
  }

  /** A month containing a week with dates whose first matching status is "Saved" fails to assemble. */
  lemma SavedWeekFailsPairing(weeks: seq<WeeklyCalendar>, states: seq<WeekState>, i: nat)
    requires i < |weeks|
    requires FindStatus(weeks[i].weekNumber, states).Some?
    requires FindStatus(weeks[i].weekNumber, states).value.status == "Saved"
    ensures Pairing(weeks, states).Failure?
  {
    SavedStatusIsRejected(weeks[i], states);
    PairingSpec(weeks, states);
  }

  /**
   * The weeks of the month that have dates, each with its status, in
   * calendar order; throws (here: fails) at the first week without one.
   */
  method WeeksWithStatus(month: MonthlyCalendar) returns (r: Result<seq<WeeklyCalendarWithStatus>, OagunthError>)
    ensures r == Pairing(NonEmptyWeeks(month.calendar.weeks), month.allWeeksStatus)
  {
    var onlyWeeksWithDays := NonEmptyWeeks(month.calendar.weeks);
    var result: seq<WeeklyCalendarWithStatus> := [];
    var i := 0;
    while i < |onlyWeeksWithDays|
      invariant 0 <= i <= |onlyWeeksWithDays|
      invariant Pairing(onlyWeeksWithDays[..i], month.allWeeksStatus) == Success(result)
    {
      var week := onlyWeeksWithDays[i];
      var rawStatus := FindStatus(week.weekNumber, month.allWeeksStatus);
      if rawStatus.None? {
        FirstFailureDecides(onlyWeeksWithDays, month.allWeeksStatus, i);
        return Failure(Parsing(StatusNotFound));
      }
      var status := GetStatusEnum(rawStatus.value);
      if status.None? {
        FirstFailureDecides(onlyWeeksWithDays, month.allWeeksStatus, i);
        return Failure(Parsing(StatusNotDecoded));
      }
      PairingStep(onlyWeeksWithDays, month.allWeeksStatus, i, result);
      result := result + [WeeklyCalendarWithStatus(week, status.value)];
      i := i + 1;
    }
    assert onlyWeeksWithDays[..i] == onlyWeeksWithDays;
    return Success(result);
  }

  /** One more week with a status extends the pairing of the weeks before it by one pair. */
  lemma PairingStep(weeks: seq<WeeklyCalendar>, states: seq<WeekState>, i: nat, prefix: seq<WeeklyCalendarWithStatus>)
    requires i < |weeks|
    requires Pairing(weeks[..i], states) == Success(prefix)
    requires StatusOf(weeks[i], states).Success?
    ensures Pairing(weeks[..i + 1], states)
            == Success(prefix + [WeeklyCalendarWithStatus(weeks[i], StatusOf(weeks[i], states).value)])
  {
    assert weeks[..i + 1][..i] == weeks[..i];
  }

  /** When every week before `i` has a status and week `i` has none, week `i`'s error is the result. */
  lemma {:induction false} FirstFailureDecides(weeks: seq<WeeklyCalendar>, states: seq<WeekState>, i: nat)
    requires i < |weeks|
    requires Pairing(weeks[..i], states).Success?
    requires StatusOf(weeks[i], states).Failure?
    ensures Pairing(weeks, states) == Failure(StatusOf(weeks[i], states).error)
  {
    var n := |weeks| - 1;
    if i < n {
      assert weeks[..n][..i] == weeks[..i];
      FirstFailureDecides(weeks[..n], states, i);
    } else {
      assert weeks[..n] == weeks[..i];
    }
  }

  /** The comparator as written: an earlier year, or a smaller week number whatever the year. */
  predicate SortFuncAsWritten(a: WeeklyCalendarWithStatus, b: WeeklyCalendarWithStatus)
  {
    a.calendar.weekYear < b.calendar.weekYear || a.calendar.weekNumber < b.calendar.weekNumber
  }

  /** Within a year the comparator orders by week number; an earlier year always comes first. */
  lemma SortFuncAsWrittenCases(a: WeeklyCalendarWithStatus, b: WeeklyCalendarWithStatus)
    ensures a.calendar.weekYear == b.calendar.weekYear ==> (SortFuncAsWritten(a, b) <==> a.calendar.weekNumber < b.calendar.weekNumber)
    ensures a.calendar.weekYear < b.calendar.weekYear ==> SortFuncAsWritten(a, b)
  {
  }

  function WeekAt(weekYear: int, weekNumber: int): WeeklyCalendarWithStatus
  {
    WeeklyCalendarWithStatus(WeeklyCalendar(weekNumber, weekYear, []), New)
  }

  /**
   * A month straddling a new year (week 53 of 2020 and week 1 of 2021, as in
   * January 2021) has two weeks each of which comes before the other, so the
   * comparator is no strict weak ordering and the sort order is unspecified.
   */
  lemma SortFuncAsWrittenNotAsymmetric()
    ensures SortFuncAsWritten(WeekAt(2020, 53), WeekAt(2021, 1))
    ensures SortFuncAsWritten(WeekAt(2021, 1), WeekAt(2020, 53))
    ensures !StrictWeakOrder(SortFuncAsWritten)
  {
    var a, b := WeekAt(2020, 53), WeekAt(2021, 1);
    assert SortFuncAsWritten(a, b) && SortFuncAsWritten(b, a);
    assert !Asymmetric(SortFuncAsWritten);
  }

  /** The evidently intended comparator: by week year, then by week number. */
  predicate WeekPrecedes(a: WeeklyCalendarWithStatus, b: WeeklyCalendarWithStatus)
  {
    a.calendar.weekYear < b.calendar.weekYear
    || (a.calendar.weekYear == b.calendar.weekYear && a.calendar.weekNumber < b.calendar.weekNumber)
  }

  lemma WeekPrecedesIsStrictWeakOrder()
    ensures StrictWeakOrder(WeekPrecedes)
  {
  }

  /** On weeks of one year the comparator as written and the intended one sort alike. */
  lemma SortFuncAgreesWithinOneYear(weeks: seq<WeeklyCalendarWithStatus>)
    requires forall a, b :: a in weeks && b in weeks ==> a.calendar.weekYear == b.calendar.weekYear
    ensures Sort(weeks, SortFuncAsWritten) == Sort(weeks, WeekPrecedes)
  {
    SortAgrees(weeks, SortFuncAsWritten, WeekPrecedes);
  }

  function SortedWeeks(weeks: seq<WeeklyCalendarWithStatus>): seq<WeeklyCalendarWithStatus>
  {
    Sort(weeks, WeekPrecedes)
  }

  /** The sorted weeks are the same weeks, by ascending week year and number. */
  lemma SortedWeeksAscending(weeks: seq<WeeklyCalendarWithStatus>)
    ensures multiset(SortedWeeks(weeks)) == multiset(weeks)
    ensures forall i, j :: 0 <= i < j < |SortedWeeks(weeks)| ==> !WeekPrecedes(SortedWeeks(weeks)[j], SortedWeeks(weeks)[i])
  {
    WeekPrecedesIsStrictWeakOrder();
    SortSorted(weeks, WeekPrecedes);
  }

  function InRange(start: Date, end: Date): ActivityLog -> bool
  {
    (l: ActivityLog) => DateLeq(start, l.date) && DateLeq(l.date, end)
  }

  /** The logs handed to a week: those between its earliest and latest date, inclusive, in log order. */
  function WeekLogSlice(days: seq<Date>, logs: seq<ActivityLog>): (r: seq<ActivityLog>)
    ensures logs == [] || days == [] ==> r == []
    ensures forall l :: l in r ==> l in logs
  {
    var sortedDaysOfWeek := SortedDays(days);
    if logs == [] || sortedDaysOfWeek == [] then []
    else Filter(logs, InRange(sortedDaysOfWeek[0], sortedDaysOfWeek[|sortedDaysOfWeek| - 1]))
  }

  /** A date is on or after some date of the week exactly when it is on or after the earliest one. */
  lemma EarliestDateBound(days: seq<Date>, x: Date)
    requires days != []
    ensures (exists d :: d in days && DateLeq(d, x)) <==> DateLeq(SortedDays(days)[0], x)
  {
    var s := SortedDays(days);
    SortedDaysSameDates(days);
    assert s[0] in s;
    if d :| d in days && DateLeq(d, x) {
      SortedDaysAscending(days);
      var k :| 0 <= k < |s| && s[k] == d;
      if k > 0 {
        assert DateLeq(s[0], s[k]);
      }
    }
  }

  /** A date is on or before some date of the week exactly when it is on or before the latest one. */
  lemma LatestDateBound(days: seq<Date>, x: Date)
    requires days != []
    ensures (exists d :: d in days && DateLeq(x, d)) <==> DateLeq(x, SortedDays(days)[|SortedDays(days)| - 1])
  {
    var s := SortedDays(days);
    SortedDaysSameDates(days);
    assert s[|s| - 1] in s;
    if d :| d in days && DateLeq(x, d) {
      SortedDaysAscending(days);
      var k :| 0 <= k < |s| && s[k] == d;
      if k < |s| - 1 {
        assert DateLeq(s[k], s[|s| - 1]);
      }
    }
  }

  /** A log is in a week's slice exactly when it lies on or after some date of the week and on or before some date of the week. */
  lemma WeekLogSliceSpan(days: seq<Date>, logs: seq<ActivityLog>, l: ActivityLog)
    requires days != []
    ensures l in WeekLogSlice(days, logs) <==>
              l in logs && (exists d :: d in days && DateLeq(d, l.date)) && (exists d :: d in days && DateLeq(l.date, d))
  {
    EarliestDateBound(days, l.date);
    LatestDateBound(days, l.date);
  }

  /** A week's slice holds, for each of the week's dates, exactly the month's logs of that date. */
  lemma WeekLogSliceKeepsDayLogs(days: seq<Date>, logs: seq<ActivityLog>, day: Date)
    requires day in days
    ensures LogsOn(WeekLogSlice(days, logs), day) == LogsOn(logs, day)
  {
    if logs != [] {
      forall l | l in logs && OnDate(day)(l)
        ensures InRange(SortedDays(days)[0], SortedDays(days)[|SortedDays(days)| - 1])(l)
      {
        WeekLogSliceSpan(days, logs, l);
        assert DateLeq(day, l.date) && DateLeq(l.date, day);
        assert l in WeekLogSlice(days, logs);
      }
      FilterNarrows(logs, InRange(SortedDays(days)[0], SortedDays(days)[|SortedDays(days)| - 1]), OnDate(day));
    }
  }

  /** The sorted weeks the month shows, or nothing when fetching or decoding fails. */
  function AssembledWeeks(activities: Result<seq<Activity>, OagunthError>, month: Result<MonthlyCalendar, OagunthError>)
    : (r: Option<seq<WeeklyCalendarWithStatus>>)
    ensures r.Some? <==> activities.Success? && month.Success?
                         && Pairing(NonEmptyWeeks(month.value.calendar.weeks), month.value.allWeeksStatus).Success?
  {
    if activities.Failure? || month.Failure? then None
    else match Pairing(NonEmptyWeeks(month.value.calendar.weeks), month.value.allWeeksStatus)
      case Failure(_) => None
      case Success(weeks) => Some(SortedWeeks(weeks))
  }

  /** Every assembled week is a week of the calendar with dates, with the status its number maps to. */
  lemma AssembledWeeksFromCalendar(activities: Result<seq<Activity>, OagunthError>, month: Result<MonthlyCalendar, OagunthError>, w: WeeklyCalendarWithStatus)
    requires AssembledWeeks(activities, month).Some? && w in AssembledWeeks(activities, month).value
    ensures w.calendar in month.value.calendar.weeks && |w.calendar.days| > 0
    ensures StatusOf(w.calendar, month.value.allWeeksStatus) == Success(w.status)
  {
    var nonEmpty := NonEmptyWeeks(month.value.calendar.weeks);
    PairingSpec(nonEmpty, month.value.allWeeksStatus);
    var paired := Pairing(nonEmpty, month.value.allWeeksStatus).value;
    SortMembers(paired, WeekPrecedes, w);
    var i :| 0 <= i < |paired| && paired[i] == w;
  }

  /** The activity of every log dated within a week of the calendar is in the catalog. */
  ghost predicate LogsKnown(activities: seq<Activity>, month: MonthlyCalendar)
  {
    forall w, l :: w in month.calendar.weeks && l in month.activities && l.date in w.days ==> Known(activities, l.activityId)
  }

  /** For each date, the logs of that date, in log order. */
  function DayLogs(days: seq<Date>, logs: seq<ActivityLog>): (r: seq<seq<ActivityLog>>)
    ensures |r| == |days| && forall j :: 0 <= j < |days| ==> r[j] == LogsOn(logs, days[j])
  {
    seq(|days|, j requires 0 <= j < |days| => LogsOn(logs, days[j]))
  }

  /** One week built for a paired week, each of its days holding exactly the month's logs of that date. */
  method MakeWeek(week: WeeklyCalendarWithStatus, activities: seq<Activity>, logs: seq<ActivityLog>)
    returns (vm: UserWeeklyCalendarViewModel)
    requires forall l :: l in logs && l.date in week.calendar.days ==> Known(activities, l.activityId)
    ensures fresh(vm)
    ensures vm.weeklyCalendarWithStatus == week
    ensures vm.LogsPerDay() == DayLogs(SortedDays(week.calendar.days), logs)
  {
    var slice := WeekLogSlice(week.calendar.days, logs);
    vm := new UserWeeklyCalendarViewModel(week, slice, activities);
    var days := SortedDays(week.calendar.days);
    forall j | 0 <= j < |vm.dataSource|
      ensures vm.dataSource[j].GetLogs() == LogsOn(logs, days[j])
    {
      SortedDaysSameDates(week.calendar.days);
      assert days[j] in days;
      WeekLogSliceKeepsDayLogs(week.calendar.days, logs, days[j]);
    }
    assert vm.LogsPerDay() == DayLogs(days, logs);
  }

  class UserMonthlyCalendarViewModel {
    var dataSource: seq<UserWeeklyCalendarViewModel>

    /**
     * Fetches the catalog and the month (given here as their outcomes), then
     * appends one week per assembled week, in sorted order, each with the
     * month's logs within its dates. Any failure leaves no week.
     */
    constructor (activities: Result<seq<Activity>, OagunthError>, month: Result<MonthlyCalendar, OagunthError>)
      requires AssembledWeeks(activities, month).Some? ==> LogsKnown(activities.value, month.value)
      ensures AssembledWeeks(activities, month).None? ==> dataSource == []
      ensures AssembledWeeks(activities, month).Some? ==>
                && |dataSource| == |AssembledWeeks(activities, month).value|
                && forall k :: 0 <= k < |dataSource| ==> dataSource[k].weeklyCalendarWithStatus == AssembledWeeks(activities, month).value[k]
      ensures forall k :: 0 <= k < |dataSource| ==> fresh(dataSource[k])
    {
      dataSource := [];
      new;
      if activities.Failure? || month.Failure? {
        return;
      }
      var weeks := WeeksWithStatus(month.value);
      if weeks.Failure? {
        dataSource := [];
        return;
      }
      var sorted := SortedWeeks(weeks.value);
      forall w, l | w in sorted && l in month.value.activities && l.date in w.calendar.days
        ensures Known(activities.value, l.activityId)
      {
        AssembledWeeksFromCalendar(activities, month, w);
      }
      ReceiveWeeks(sorted, activities.value, month.value.activities);
    }

    /** The values reaching the subscriber, one at a time, in order. */
    method ReceiveWeeks(weeks: seq<WeeklyCalendarWithStatus>, activities: seq<Activity>, logs: seq<ActivityLog>)
      requires forall w, l :: w in weeks && l in logs && l.date in w.calendar.days ==> Known(activities, l.activityId)
      modifies this`dataSource
      ensures |dataSource| == |old(dataSource)| + |weeks| && dataSource[..|old(dataSource)|] == old(dataSource)
      ensures forall k :: |old(dataSource)| <= k < |dataSource| ==> fresh(dataSource[k])
      ensures forall k :: 0 <= k < |weeks| ==> dataSource[|old(dataSource)| + k].weeklyCalendarWithStatus == weeks[k]
    {
      var start := |dataSource|;
      var i := 0;
      while i < |weeks|
        invariant 0 <= i <= |weeks|
        invariant |dataSource| == start + i && dataSource[..start] == old(dataSource)
        invariant forall k :: start <= k < |dataSource| ==> fresh(dataSource[k])
        invariant forall k :: 0 <= k < i ==> dataSource[start + k].weeklyCalendarWithStatus == weeks[k]
      {
        ReceiveWeek(weeks[i], activities, logs);
        i := i + 1;
      }
    }

    /** One value reaching the subscriber: the week built for `week` is appended. */
    method ReceiveWeek(week: WeeklyCalendarWithStatus, activities: seq<Activity>, logs: seq<ActivityLog>)
      requires forall l :: l in logs && l.date in week.calendar.days ==> Known(activities, l.activityId)
      modifies this`dataSource
      ensures |dataSource| == |old(dataSource)| + 1 && dataSource[..|old(dataSource)|] == old(dataSource)
      ensures fresh(dataSource[|dataSource| - 1])
      ensures dataSource[|dataSource| - 1].weeklyCalendarWithStatus == week
    {
      var vm := MakeWeek(week, activities, logs);
      dataSource := dataSource + [vm];
    }
  }
}
