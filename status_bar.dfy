/**
 * The status-bar text after a panel refresh: the running clock of the
 * latest active timer, or "Idle" when none is running.
 */
module StatusBar {
  import opened KimaiTypes
  import opened Duration

  const ClockPrefix := "$(clock) Kimai: "
  const IdleText := "$(clock) Kimai: Idle"

  /**
   * The text after one clock tick at nowMs: the first entry of the active
   * list is the latest timer, and its begin instant starts the clock.
   */
  function StatusBarText(active: seq<TimesheetEntry>, nowMs: int): (text: string)
    ensures text == IdleText <==> active == []
    ensures active != [] ==> text == ClockPrefix + ClockString(nowMs - active[0].beginMs)
  {
    if |active| > 0 then
      ClockPrefix + ClockString(nowMs - active[0].beginMs)
    else
      IdleText
  }
}
