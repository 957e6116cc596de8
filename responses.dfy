/**
 * The payloads the backend sends, and the decoding of a week's status.
 * Times are counted in quarters of a day; dates are calendar dates.
 */
module Responses {
  import opened Wrappers
  import Sorting

  /** An opaque identifier: only equality is ever used. */
  datatype Uuid = Uuid(bits: nat)

  /** A calendar date; dates are compared by calendar day, never by instant. */
  datatype Date = Date(year: int, month: int, day: int)

  /** Chronological order on dates. */
  predicate DateBefore(a: Date, b: Date)
  {
    a.year < b.year
    || (a.year == b.year && a.month < b.month)
    || (a.year == b.year && a.month == b.month && a.day < b.day)
  }

  predicate DateLeq(a: Date, b: Date)
  {
    !DateBefore(b, a)
  }

  lemma DateBeforeIsStrictWeakOrder()
    ensures Sorting.StrictWeakOrder(DateBefore)
  {
  }

  /** Time a user logged against one activity on one day, in quarters of a day. */
  datatype ActivityLog = ActivityLog(activityId: Uuid, time: nat, date: Date)

  datatype WeeklyCalendar = WeeklyCalendar(weekNumber: int, weekYear: int, days: seq<Date>)

  datatype Calendar = Calendar(currentWeekYear: int, currentWeekNumber: int, weeks: seq<WeeklyCalendar>)

  datatype WeekStatus = New | Submitted | Saved

  /** The wire spelling of a status. */
  function Description(s: WeekStatus): string
  {
    match s
    case New => "New"
    case Submitted => "Submitted"
    case Saved => "Saved"
  }

  /** Distinct statuses are spelled differently. */
  lemma DescriptionInjective(s: WeekStatus, t: WeekStatus)
    ensures Description(s) == Description(t) <==> s == t
  {
  }

  /** A week's status as the backend lists it. */
  datatype WeekState = WeekState(weekYear: int, weekNumber: int, status: string)

  /**
   * Decodes the status string. Only "New" and "Submitted" are recognised;
   * every other string, "Saved" included, decodes to nothing.
   */
  function GetStatusEnum(state: WeekState): (r: Option<WeekStatus>)
    ensures r == Some(New) <==> state.status == "New"
    ensures r == Some(Submitted) <==> state.status == "Submitted"
    ensures r.None? <==> state.status != "New" && state.status != "Submitted"
    ensures r != Some(Saved)
  {
    if state.status == Description(New) then Some(New)
    else if state.status == Description(Submitted) then Some(Submitted)
    else None
  }

  /** Decoding a status's own spelling gives it back, except for Saved. */
  lemma StatusRoundTrip(s: WeekStatus, weekYear: int, weekNumber: int)
    ensures GetStatusEnum(WeekState(weekYear, weekNumber, Description(s))) == (if s == Saved then None else Some(s))
  {
  }

  /** Decoding looks at the status string only. */
  lemma GetStatusEnumIgnoresWeek(a: WeekState, b: WeekState)
    requires a.status == b.status
    ensures GetStatusEnum(a) == GetStatusEnum(b)
  {
  }

  datatype Activity = Activity(id: Uuid, name: string)

  /** One month as the backend sends it. */
  datatype MonthlyCalendar = MonthlyCalendar(
    currentDate: string,
    activities: seq<ActivityLog>,
    calendar: Calendar,
    allWeeksStatus: seq<WeekState>)
}
