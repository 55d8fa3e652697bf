/** Focus-log entries: the append-only record of minutes spent focusing. */
module FocusLog {
  import opened Common

  /** `{ date, minutes, type: "Focus" }`; the timer only ever writes the `Focus` tag. */
  datatype FocusLogEntry = FocusLogEntry(date: Day, minutes: nat, kind: SessionType)

  /**
   * The effect of a timer transition on the log: nothing, or `push` of one
   * entry dated today with the given number of minutes.
   */
  function Emit(logs: seq<FocusLogEntry>, today: Day, logged: Option<nat>): (r: seq<FocusLogEntry>)
    ensures logged.None? ==> r == logs
    ensures logged.Some? ==>
      |r| == |logs| + 1 && r[..|logs|] == logs && r[|logs|] == FocusLogEntry(today, logged.value, Focus)
  {
    if logged.Some? then logs + [FocusLogEntry(today, logged.value, Focus)] else logs
  }
}
