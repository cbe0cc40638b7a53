/**
 * The bar under the calendar while cells are picked
 * (src/app/pages/calendar/selection-bar/selection-bar.component.ts): it
 * offers the three marks, describes what applying will do, and asks the
 * page to apply or clear.
 */
module SelectionBar {
  import opened JsText
  import opened Availability
  import CalendarPage

  /** The mark and the emitted `statusChange` events after `setStatus(status)`. */
  function AfterSetStatus(current: Mark, events: seq<Mark>, status: Mark): (r: (Mark, seq<Mark>))
    ensures r.0 == status
    ensures current != status ==> r.1 == events + [status]
    ensures current == status ==> r.1 == events
  {
    if current != status then (status, events + [status]) else (current, events)
  }

  /** Choosing the same mark again emits nothing more. */
  lemma SetStatusIdempotent(current: Mark, events: seq<Mark>, status: Mark)
    ensures var (m, e) := AfterSetStatus(current, events, status);
      AfterSetStatus(m, e, status) == (m, e)
  {
  }

  /** Every emitted mark differs from the one before it. */
  lemma EmitsOnlyChanges(current: Mark, events: seq<Mark>, status: Mark)
    requires events != [] ==> events[|events| - 1] == current
    ensures var (m, e) := AfterSetStatus(current, events, status);
      (e != [] ==> e[|e| - 1] == m) &&
      (|e| > |events| ==> (events == [] || events[|events| - 1] != status))
  {
  }

  /**
   * getDescription: "Marcar como …" for exactly one picked cell, "Marcar
   * todos como …" for any other count, with the label in lower case.
   */
  function Description(count: nat, m: Mark): (d: string)
    ensures count == 1 <==> StartsWith(d, "Marcar como ")
    ensures count != 1 <==> StartsWith(d, "Marcar todos como ")
    ensures EndsWith(d, ToLower(StatusLabel(m)))
  {
    var statusLabel := ToLower(StatusLabel(m));
    if count == 1 then
      var d := "Marcar como " + statusLabel;
      assert |d| < 18 || d[..18][7] != "Marcar todos como "[7];
      d
    else
      var d := "Marcar todos como " + statusLabel;
      assert d[..12][7] != "Marcar como "[7];
      d
  }

  predicate EndsWith(s: string, suffix: string)
  {
    |suffix| <= |s| && s[|s| - |suffix|..] == suffix
  }

  class SelectionBarComponent {
    var show: bool
    var loading: bool
    var pendingSelections: seq<CalendarPage.PendingSelection>
    var pendingStatus: Mark
    /** The `statusChange` events emitted so far. */
    var statusEvents: seq<Mark>
    var applyEvents: nat
    var clearEvents: nat

    constructor ()
      ensures !show && !loading && pendingSelections == [] && pendingStatus == MarkAvailable
      ensures statusEvents == [] && applyEvents == 0 && clearEvents == 0
    {
      show := false;
      loading := false;
      pendingSelections := [];
      pendingStatus := MarkAvailable;
      statusEvents := [];
      applyEvents := 0;
      clearEvents := 0;
    }

    /** setStatus: the mark changes and is emitted only when it differs. */
    method SetStatus(status: Mark)
      modifies this`pendingStatus, this`statusEvents
      ensures (pendingStatus, statusEvents) == AfterSetStatus(old(pendingStatus), old(statusEvents), status)
    {
      if pendingStatus != status {
        pendingStatus := status;
        statusEvents := statusEvents + [status];
      }
    }

    /** getDescription */
    function GetDescription(): (d: string)
      reads this`pendingSelections, this`pendingStatus
      ensures |pendingSelections| == 1 <==> StartsWith(d, "Marcar como ")
    {
      Description(|pendingSelections|, pendingStatus)
    }

    /** onApply: one `apply` event, nothing else changes. */
    method OnApply()
      modifies this`applyEvents
      ensures applyEvents == old(applyEvents) + 1
    {
      applyEvents := applyEvents + 1;
    }

    /** onClear: one `clear` event, nothing else changes. */
    method OnClear()
      modifies this`clearEvents
      ensures clearEvents == old(clearEvents) + 1
    {
      clearEvents := clearEvents + 1;
    }
  }
}
