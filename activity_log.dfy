/**
 * One activity's time on one day. Time moves in steps of one quarter of a
 * day; an increment is gated on the owning day's total, a decrement on the
 * entry's own time.
 */
module ActivityLogs {
  import opened Responses

  /** A whole day, counted in quarters. */
  const QuartersPerDay: nat := 4

  /** The entry's time after `increment`, given the day total the entry reads before the step. */
  function IncrementedTime(time: nat, dayTotal: nat): nat
  {
    if dayTotal + 1 <= QuartersPerDay then time + 1 else time
  }

  /** The entry's time after `decrement`. */
  function DecrementedTime(time: nat): nat
  {
    var newTime := time as int - 1;
    if newTime >= 0 then newTime else time
  }

  /** An increment adds one quarter exactly when the day has a quarter left, and otherwise changes nothing. */
  lemma IncrementAcceptedIff(time: nat, dayTotal: nat)
    ensures IncrementedTime(time, dayTotal) == time + 1 <==> dayTotal + 1 <= QuartersPerDay
    ensures IncrementedTime(time, dayTotal) == time <==> dayTotal + 1 > QuartersPerDay
  {
  }

  /** A decrement removes one quarter exactly when the entry has one, and never goes below zero. */
  lemma DecrementAcceptedIff(time: nat)
    ensures DecrementedTime(time) as int == time - 1 <==> time >= 1
    ensures DecrementedTime(time) == time <==> time == 0
  {
  }

  /** An accepted increment followed by a decrement restores the time. */
  lemma IncrementThenDecrement(time: nat, dayTotal: nat)
    requires dayTotal + 1 <= QuartersPerDay
    ensures DecrementedTime(IncrementedTime(time, dayTotal)) == time
  {
  }

  /**
   * One entry of a day. `log` is the record the entry keeps in step with
   * `time`; the closure through which the entry reads its day's total is
   * modelled by the `dayTotal` argument of `Increment`.
   */
  class ActivityLogViewModel {
    var log: ActivityLog
    const name: string
    var time: nat

    /** Every write of `time` is copied into the stored log. */
    ghost predicate Valid()
      reads this
    {
      log.time == time
    }

    function ActivityId(): Uuid
      reads this
    {
      log.activityId
    }

    constructor (log: ActivityLog, activityName: string)
      ensures Valid()
      ensures this.log == log && name == activityName
      ensures time == log.time && ActivityId() == log.activityId
    {
      this.log := log;
      this.name := activityName;
      this.time := log.time;
    }

    /** The assignment to `time` together with its observer, which writes the stored log. */
    method SetTime(newTime: nat)
      modifies this
      ensures Valid()
      ensures time == newTime
      ensures log == old(log).(time := newTime)
    {
      time := newTime;
      log := log.(time := time);
    }

    method Increment(dayTotal: nat)
      requires Valid()
      modifies this
      ensures Valid()
      ensures time == IncrementedTime(old(time), dayTotal)
      ensures log == old(log).(time := time)
    {
      if dayTotal + 1 <= QuartersPerDay {
        SetTime(time + 1);
      }
    }

    method Decrement()
      requires Valid()
      modifies this
      ensures Valid()
      ensures time == DecrementedTime(old(time))
      ensures log == old(log).(time := time)
    {
      var newTime := time as int - 1;
      if newTime >= 0 {
        SetTime(newTime);
      }
    }
  }
}
