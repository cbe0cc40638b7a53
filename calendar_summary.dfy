/**
 * The week summary popup
 * (src/app/components/calendar-summary-popup/calendar-summary-popup.component.ts):
 * a read-only view of the same grid, given the week, the windows and the
 * viewed player as inputs.
 */
module CalendarSummary {
  import opened JsText
  import opened Availability

  /** getSlotStatus: no status for a day the week does not have, else the first covering window's. */
  function SummarySlotStatus(week: seq<WeekDay>, avs: seq<Avail>, viewer: Option<string>, day: int, time: string)
    : (r: Option<SlotStatus>)
    ensures !(0 <= day < |week|) ==> r.None?
    ensures 0 <= day < |week| ==>
      (r.None? <==> forall i :: 0 <= i < |avs| ==> !Covers(avs[i], viewer, week[day].iso, time))
    ensures 0 <= day < |week| && r.Some? ==>
      exists i :: FirstCovering(avs, viewer, week[day].iso, time, i) && avs[i].status == r.value
  {
    if !(0 <= day < |week|) then None
    else StatusAt(avs, viewer, week[day].iso, time)
  }

  /** On a day of the week the popup shows what the calendar page shows. */
  lemma SummaryMatchesPage(week: seq<WeekDay>, avs: seq<Avail>, viewer: Option<string>, day: int, time: string)
    requires 0 <= day < |week|
    ensures SummarySlotStatus(week, avs, viewer, day, time) == StatusAt(avs, viewer, week[day].iso, time)
  {
  }

  /** The text a status is stored as. */
  function StatusText(s: SlotStatus): (t: string)
  {
    match s
    case Available => "available"
    case Maybe => "maybe"
    case Busy => "busy"
  }

  /** getStatusClasses: the three status texts have their classes; anything else, null included, is free. */
  function GetStatusClasses(status: Option<string>): (c: string)
    ensures c != "status-free" <==> status.Some? && status.value in {"available", "maybe", "busy"}
  {
    if status == Some("available") then "status-available"
    else if status == Some("maybe") then "status-maybe"
    else if status == Some("busy") then "status-busy"
    else "status-free"
  }

  /** The popup colours a cell as the calendar page does. */
  lemma ClassesAgree(s: Option<SlotStatus>)
    ensures GetStatusClasses(if s.None? then None else Some(StatusText(s.value))) == StatusClass(s)
  {
  }

  /**
   * formatWeekRange: "" for an empty week, else the first and seventh days'
   * "d/m/yyyy" texts joined by " - ". A week of one to six days makes the
   * source read a missing seventh day and throw, so it is excluded.
   */
  function FormatWeekRange(week: seq<WeekDay>): (r: string)
    requires |week| == 0 || |week| >= 7
    ensures |week| == 0 ==> r == ""
    ensures |week| > 0 ==> StartsWith(r, week[0].dayMonthYear + " - ") && |r| >= 3
  {
    if |week| == 0 then ""
    else week[0].dayMonthYear + " - " + week[6].dayMonthYear
  }
}
