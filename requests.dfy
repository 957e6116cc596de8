/** The bodies and arguments of the two outbound calls. */
module Requests {
  import opened Responses
  import opened ApiErrors

  datatype Log = Log(time: nat, activityRef: Uuid)

  datatype SaveActivity = SaveActivity(day: int, month: int, year: int, log: Log)

  datatype SaveActivities = SaveActivities(days: seq<SaveActivity>)

  /** The arguments handed to the client's `saveActivities` and `submitActivities`. */
  datatype ApiCall =
    | SaveCall(day: Date, logs: SaveActivities)
    | SubmitCall(month: int, year: int, weekNumber: int)

  /** What the backend answered to a call: the only part of the network the model keeps. */
  datatype SyncOutcome = Delivered | Rejected(error: OagunthError)
}
