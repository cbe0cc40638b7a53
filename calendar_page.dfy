/**
 * The calendar page (src/app/pages/calendar/calendar.component.ts): the
 * player's week, the stored availability windows, the cells the player has
 * picked but not yet applied, and the edit permission.
 *
 * A cell is a (day index, grid time) pair. Picking a cell toggles it in the
 * pending list; applying the list either clears every picked cell or puts a
 * one-hour window with the chosen status on each, and then asks the store to
 * save the viewing player's windows.
 */
module CalendarPage {
  import opened JsText
  import opened Availability

  /** A picked cell, with the texts the selection bar shows for it. */
  datatype PendingSelection = PendingSelection(day: int, time: string, date: string,
                                               displayDate: string, displayTime: string)

  /** What `savePendingSelections` sends: the player id and that player's windows. */
  datatype SaveRequest = SaveRequest(playerId: string, windows: seq<Avail>, count: nat, statusLabel: string)

  /** What applying the pending cells leads to. */
  datatype SaveStart =
    | NothingPending
    | Alerted(message: string)
    | Saving(request: SaveRequest)

  const MissingPlayerAlert: string := "Erro: ID do jogador não encontrado."
  const SaveFailedAlert: string := "Erro ao salvar seleções. Tente novamente."

  // ---------------------------------------------------------------------------
  // The pending list

  /** isCellPendingSelection */
  predicate IsPending(ps: seq<PendingSelection>, day: int, time: string)
  {
    exists i :: 0 <= i < |ps| && ps[i].day == day && ps[i].time == time
  }

  /** No cell is picked twice. */
  predicate NoDuplicateCells(ps: seq<PendingSelection>)
  {
    forall i, j :: 0 <= i < j < |ps| ==> !(ps[i].day == ps[j].day && ps[i].time == ps[j].time)
  }

  /** Every picked cell is a day of the displayed week. */
  predicate DaysIn(ps: seq<PendingSelection>, days: int)
  {
    forall i :: 0 <= i < |ps| ==> 0 <= ps[i].day < days
  }

  /** `pendingSelections.findIndex(s => s.day === day && s.time === time)` */
  function FindCell(ps: seq<PendingSelection>, day: int, time: string): (k: int)
    ensures -1 <= k < |ps|
    ensures k == -1 <==> !IsPending(ps, day, time)
    ensures k >= 0 ==> ps[k].day == day && ps[k].time == time
    ensures k >= 0 ==> forall j :: 0 <= j < k ==> !(ps[j].day == day && ps[j].time == time)
  {
    if ps == [] then -1
    else if ps[0].day == day && ps[0].time == time then 0
    else
      var k := FindCell(ps[1..], day, time);
      if k == -1 then
        assert forall i :: 1 <= i < |ps| ==> ps[i] == ps[1..][i - 1];
        -1
      else
        k + 1
  }

  /** `splice(findIndex(...), 1)` when the cell is found; the list otherwise. */
  function WithoutSelection(ps: seq<PendingSelection>, day: int, time: string): (r: seq<PendingSelection>)
    ensures !IsPending(ps, day, time) ==> r == ps
    ensures IsPending(ps, day, time) ==> |r| == |ps| - 1
  {
    var k := FindCell(ps, day, time);
    if k == -1 then ps else ps[..k] + ps[k + 1..]
  }

  /** The entry toggleCellSelection pushes. */
  function NewSelection(week: seq<WeekDay>, day: int, time: string): (s: PendingSelection)
    requires 0 <= day < |week|
    ensures s.day == day && s.time == time && s.date == week[day].iso
    ensures s.displayTime == time + " - " + EndTimeFor(time)
  {
    PendingSelection(day, time, week[day].iso, week[day].display, time + " - " + EndTimeFor(time))
  }

  /**
   * The pending list after toggleCellSelection on an editable calendar: the
   * found entry spliced out, or a new entry pushed.
   */
  function Toggled(ps: seq<PendingSelection>, week: seq<WeekDay>, day: int, time: string): (r: seq<PendingSelection>)
    requires 0 <= day < |week|
    ensures !IsPending(ps, day, time) ==> r == ps + [NewSelection(week, day, time)]
    ensures IsPending(ps, day, time) ==> r == WithoutSelection(ps, day, time)
  {
    if FindCell(ps, day, time) >= 0 then WithoutSelection(ps, day, time)
    else ps + [NewSelection(week, day, time)]
  }

  /** Toggling a day of the week keeps every picked cell inside the week. */
  lemma ToggledDays(ps: seq<PendingSelection>, week: seq<WeekDay>, day: int, time: string)
    requires 0 <= day < |week|
    requires DaysIn(ps, |week|)
    ensures DaysIn(Toggled(ps, week, day, time), |week|)
  {
    var k := FindCell(ps, day, time);
    if k >= 0 {
      var r := ps[..k] + ps[k + 1..];
      assert forall i :: 0 <= i < |r| ==> r[i] in ps;
    }
  }

  /** What toggleCellSelection needs of the toggled list: the cell flips, nothing is doubled, the days stay in the week. */
  lemma ToggleKeepsValid(ps: seq<PendingSelection>, week: seq<WeekDay>, day: int, time: string)
    requires 0 <= day < |week|
    requires DaysIn(ps, |week|) && NoDuplicateCells(ps)
    ensures DaysIn(Toggled(ps, week, day, time), |week|) && NoDuplicateCells(Toggled(ps, week, day, time))
    ensures IsPending(Toggled(ps, week, day, time), day, time) <==> !IsPending(ps, day, time)
  {
    ToggledCells(ps, week, day, time);
    ToggledDays(ps, week, day, time);
  }

  /** Removing a cell keeps the other cells and their order, and drops the cell when it was not doubled. */
  lemma WithoutSelectionCells(ps: seq<PendingSelection>, day: int, time: string)
    ensures NoDuplicateCells(ps) ==> NoDuplicateCells(WithoutSelection(ps, day, time))
    ensures NoDuplicateCells(ps) ==> !IsPending(WithoutSelection(ps, day, time), day, time)
    ensures forall d, t :: (d != day || t != time) ==>
      (IsPending(WithoutSelection(ps, day, time), d, t) <==> IsPending(ps, d, t))
  {
    var k := FindCell(ps, day, time);
    if k >= 0 {
      var r := ps[..k] + ps[k + 1..];
      assert forall i :: 0 <= i < k ==> r[i] == ps[i];
      assert forall i :: k <= i < |r| ==> r[i] == ps[i + 1];
      forall d, t | d != day || t != time
        ensures IsPending(r, d, t) <==> IsPending(ps, d, t)
      {
        if IsPending(ps, d, t) {
          var i :| 0 <= i < |ps| && ps[i].day == d && ps[i].time == t;
          if i < k {
            assert r[i] == ps[i];
          } else {
            assert r[i - 1] == ps[i];
          }
        }
      }
    }
  }

  /**
   * toggleCellSelection flips the cell and no other, and never picks a cell
   * twice.
   */
  lemma ToggledCells(ps: seq<PendingSelection>, week: seq<WeekDay>, day: int, time: string)
    requires 0 <= day < |week|
    requires NoDuplicateCells(ps)
    ensures IsPending(Toggled(ps, week, day, time), day, time) <==> !IsPending(ps, day, time)
    ensures forall d, t :: (d != day || t != time) ==>
      (IsPending(Toggled(ps, week, day, time), d, t) <==> IsPending(ps, d, t))
    ensures NoDuplicateCells(Toggled(ps, week, day, time))
  {
    var r := Toggled(ps, week, day, time);
    if IsPending(ps, day, time) {
      WithoutSelectionCells(ps, day, time);
    } else {
      var n := NewSelection(week, day, time);
      assert r == ps + [n];
      assert r[|ps|] == n;
      assert forall i :: 0 <= i < |ps| ==> r[i] == ps[i];
      forall d, t | d != day || t != time
        ensures IsPending(r, d, t) <==> IsPending(ps, d, t)
      {
        if IsPending(r, d, t) {
          var i :| 0 <= i < |r| && r[i].day == d && r[i].time == t;
          assert i < |ps|;
        }
      }
    }
  }

  /** Toggling a cell that was not picked, and toggling it again, restores the list. */
  lemma ToggleTwice(ps: seq<PendingSelection>, week: seq<WeekDay>, day: int, time: string)
    requires 0 <= day < |week|
    requires !IsPending(ps, day, time)
    ensures Toggled(Toggled(ps, week, day, time), week, day, time) == ps
  {
    var n := NewSelection(week, day, time);
    var r := ps + [n];
    assert r[|ps|] == n;
    assert IsPending(r, day, time);
    assert forall i :: 0 <= i < |ps| ==> r[i] == ps[i];
    var k := FindCell(r, day, time);
    assert k == |ps|;
    assert r[..k] == ps;
  }

  // ---------------------------------------------------------------------------
  // Applying the pending cells

  /** The edit applyPendingSelections makes for one cell. */
  function ApplyOne(avs: seq<Avail>, week: seq<WeekDay>, viewer: Option<string>, s: PendingSelection, m: Mark): (r: seq<Avail>)
    requires 0 <= s.day < |week|
    ensures m == MarkUnavailable ==> r == WithoutCell(avs, viewer, week[s.day].iso, s.time)
    ensures m != MarkUnavailable ==> r == WithCell(avs, viewer, week[s.day].iso, s.time, MarkStatus(m))
  {
    if m == MarkUnavailable then WithoutCell(avs, viewer, week[s.day].iso, s.time)
    else WithCell(avs, viewer, week[s.day].iso, s.time, MarkStatus(m))
  }

  /** The windows after the edits for `ps`, made in list order. */
  function ApplyAll(avs: seq<Avail>, week: seq<WeekDay>, viewer: Option<string>, ps: seq<PendingSelection>, m: Mark): (r: seq<Avail>)
    requires DaysIn(ps, |week|)
    decreases |ps|
  {
    if ps == [] then avs
    else ApplyOne(ApplyAll(avs, week, viewer, ps[..|ps| - 1], m), week, viewer, ps[|ps| - 1], m)
  }

  /** Every picked time is a row of the grid, as the page only offers those. */
  predicate GridTimes(ps: seq<PendingSelection>)
  {
    forall i :: 0 <= i < |ps| ==> ps[i].time in TimeSlots
  }

  /**
   * After the pending cells are applied with a status, each of them shows
   * that status through its own window, whatever the list's order and
   * whatever was stored before.
   */
  lemma {:induction false} ApplyAllShows(avs: seq<Avail>, week: seq<WeekDay>, viewer: Option<string>,
                                         ps: seq<PendingSelection>, m: Mark, j: int)
    requires DaysIn(ps, |week|) && GridTimes(ps)
    requires m != MarkUnavailable
    requires 0 <= j < |ps|
    ensures OnlyWindow(ApplyAll(avs, week, viewer, ps, m), viewer, week[ps[j].day].iso, ps[j].time, MarkStatus(m))
    decreases |ps|
  {
    var n := |ps| - 1;
    var init := ps[..n];
    assert DaysIn(init, |week|) && GridTimes(init);
    var before := ApplyAll(avs, week, viewer, init, m);
    var last := ps[n];
    if j == n {
      WithCellOnlyWindow(before, viewer, week[last.day].iso, last.time, MarkStatus(m));
    } else {
      assert init[j] == ps[j];
      ApplyAllShows(avs, week, viewer, init, m, j);
      var date := week[ps[j].day].iso;
      var date2 := week[last.day].iso;
      if date2 == date && last.time == ps[j].time {
        WithCellOnlyWindow(before, viewer, date, ps[j].time, MarkStatus(m));
      } else {
        WithCellKeepsOnlyWindow(before, viewer, date, ps[j].time, MarkStatus(m), date2, last.time, MarkStatus(m));
      }
    }
  }

  /** After the pending cells are cleared, none of them shows a status. */
  lemma {:induction false} ApplyAllClears(avs: seq<Avail>, week: seq<WeekDay>, viewer: Option<string>,
                                          ps: seq<PendingSelection>, j: int)
    requires DaysIn(ps, |week|)
    requires 0 <= j < |ps|
    ensures StatusAt(ApplyAll(avs, week, viewer, ps, MarkUnavailable), viewer, week[ps[j].day].iso, ps[j].time).None?
    decreases |ps|
  {
    var n := |ps| - 1;
    var init := ps[..n];
    assert DaysIn(init, |week|);
    var before := ApplyAll(avs, week, viewer, init, MarkUnavailable);
    var last := ps[n];
    if j == n {
      WithoutCellFree(before, viewer, week[last.day].iso, last.time);
    } else {
      assert init[j] == ps[j];
      ApplyAllClears(avs, week, viewer, init, j);
      WithoutCellKeepsFree(before, viewer, week[ps[j].day].iso, ps[j].time, week[last.day].iso, last.time);
    }
  }

  /** The two outcomes, as getSlotStatus reads them. */
  lemma ApplyAllStatus(avs: seq<Avail>, week: seq<WeekDay>, viewer: Option<string>,
                       ps: seq<PendingSelection>, m: Mark, j: int)
    requires DaysIn(ps, |week|) && GridTimes(ps)
    requires 0 <= j < |ps|
    ensures m == MarkUnavailable ==>
      StatusAt(ApplyAll(avs, week, viewer, ps, m), viewer, week[ps[j].day].iso, ps[j].time).None?
    ensures m != MarkUnavailable ==>
      StatusAt(ApplyAll(avs, week, viewer, ps, m), viewer, week[ps[j].day].iso, ps[j].time) == Some(MarkStatus(m))
  {
    if m == MarkUnavailable {
      ApplyAllClears(avs, week, viewer, ps, j);
    } else {
      ApplyAllShows(avs, week, viewer, ps, m, j);
      OnlyWindowStatus(ApplyAll(avs, week, viewer, ps, m), viewer, week[ps[j].day].iso, ps[j].time, MarkStatus(m));
    }
  }

  /** The viewing player's windows, as sent to the store. */
  function WindowsOf(avs: seq<Avail>, viewer: Option<string>): (r: seq<Avail>)
    ensures forall i :: 0 <= i < |r| ==> r[i].userId == viewer && r[i] in avs
    ensures forall i :: 0 <= i < |avs| && avs[i].userId == viewer ==> avs[i] in r
    ensures IsSubsequence(r, avs)
  {
    FilterIsSubsequence(avs, (av: Avail) => av.userId == viewer);
    Filter(avs, (av: Avail) => av.userId == viewer)
  }

  /** The success toast: `✅ N horário(s) marcado(s) como "label" com sucesso!`, label in lower case. */
  function SavedToast(count: nat, statusLabel: string): (t: string)
    ensures StartsWith(t, "\U{2705} " + NatToString(count) + " horário(s) marcado(s) como \"")
  {
    "\U{2705} " + NatToString(count) + " horário(s) marcado(s) como \"" + ToLower(statusLabel) + "\" com sucesso!"
  }

  /** The permission rule of checkPermission: the viewed id after it and whether the page may edit. */
  function Permission(auth: Option<string>, viewing: Option<string>): (r: (bool, Option<string>))
    ensures !Truthy(auth) ==> r == (false, viewing)
    ensures Truthy(auth) && Truthy(viewing) ==> r.1 == viewing
    ensures Truthy(auth) && !Truthy(viewing) ==> r.1 == auth
    ensures r.0 <==> Truthy(auth) && auth == r.1
  {
    if !Truthy(auth) then (false, viewing)
    else
      var v := if Truthy(viewing) then viewing else auth;
      (auth == v, v)
  }

  /** A player always may edit their own calendar, and only their own. */
  lemma OwnCalendarOnly(auth: Option<string>, viewing: Option<string>)
    ensures Truthy(auth) && (viewing == auth || !Truthy(viewing)) ==> Permission(auth, viewing).0
    ensures Truthy(viewing) && viewing != auth ==> !Permission(auth, viewing).0
  {
  }

  /** isViewerOnly after checkPermission: someone is viewed and it is not the signed-in player. */
  lemma ViewerOnlyAfterCheck(auth: Option<string>, viewing: Option<string>)
    ensures var (canEdit, v) := Permission(auth, viewing);
      (Truthy(v) && !canEdit) <==> (Truthy(auth) && Truthy(viewing) && viewing != auth) || (!Truthy(auth) && Truthy(viewing))
  {
  }

  // ---------------------------------------------------------------------------
  // The page

  class CalendarComponent {
    var week: seq<WeekDay>
    var availabilities: seq<Avail>
    var pendingSelections: seq<PendingSelection>
    var showSelectionBar: bool
    var pendingStatus: Mark
    var canEditCalendar: bool
    var authPlayerId: Option<string>
    var viewingPlayerId: Option<string>
    var loading: bool

    /** The bar is shown exactly when cells are picked; picked cells are days of the week, once each. */
    predicate Valid()
      reads this`week, this`pendingSelections, this`showSelectionBar
    {
      DaysIn(pendingSelections, |week|) && NoDuplicateCells(pendingSelections) &&
      showSelectionBar == (|pendingSelections| > 0)
    }

    constructor (week: seq<WeekDay>)
      ensures this.week == week && availabilities == [] && pendingSelections == []
      ensures !showSelectionBar && pendingStatus == MarkAvailable && !canEditCalendar
      ensures authPlayerId.None? && viewingPlayerId.None? && !loading
      ensures Valid()
    {
      this.week := week;
      availabilities := [];
      pendingSelections := [];
      showSelectionBar := false;
      pendingStatus := MarkAvailable;
      canEditCalendar := false;
      authPlayerId := None;
      viewingPlayerId := None;
      loading := false;
    }

    /** checkPermission */
    method CheckPermission()
      modifies this`canEditCalendar, this`viewingPlayerId
      ensures (canEditCalendar, viewingPlayerId) == Permission(authPlayerId, old(viewingPlayerId))
    {
      if !Truthy(authPlayerId) {
        canEditCalendar := false;
        return;
      }
      if !Truthy(viewingPlayerId) {
        viewingPlayerId := authPlayerId;
      }
      var hasAuthId := Truthy(authPlayerId);
      var hasViewingId := Truthy(viewingPlayerId);
      var idsMatch := authPlayerId == viewingPlayerId;
      canEditCalendar := hasAuthId && hasViewingId && idsMatch;
    }

    /** isViewerOnly: read-only when someone is viewed and the page may not edit. */
    predicate IsViewerOnly()
      reads this`viewingPlayerId, this`canEditCalendar
    {
      Truthy(viewingPlayerId) && !canEditCalendar
    }

    /** getSlotStatus */
    function GetSlotStatus(day: int, time: string): (r: Option<SlotStatus>)
      reads this`week, this`availabilities, this`viewingPlayerId
      requires 0 <= day < |week|
      ensures r.None? <==> forall i :: 0 <= i < |availabilities| ==>
        !Covers(availabilities[i], viewingPlayerId, week[day].iso, time)
      ensures r.Some? ==>
        exists i :: (FirstCovering(availabilities, viewingPlayerId, week[day].iso, time, i) &&
                     availabilities[i].status == r.value)
    {
      StatusAt(availabilities, viewingPlayerId, week[day].iso, time)
    }

    /** isCellPendingSelection */
    predicate IsCellPendingSelection(day: int, time: string)
      reads this`pendingSelections
    {
      IsPending(pendingSelections, day, time)
    }

    /** toggleCellSelection: nothing unless the page may edit; the day must be one of the week. */
    method ToggleCellSelection(day: int, time: string)
      requires Valid()
      requires canEditCalendar ==> 0 <= day < |week|
      modifies this`pendingSelections, this`showSelectionBar
      ensures Valid()
      ensures !canEditCalendar ==> pendingSelections == old(pendingSelections) && showSelectionBar == old(showSelectionBar)
      ensures canEditCalendar ==> pendingSelections == Toggled(old(pendingSelections), week, day, time)
      ensures canEditCalendar ==> (IsPending(pendingSelections, day, time) <==> !IsPending(old(pendingSelections), day, time))
    {
      if !canEditCalendar {
        return;
      }
      var ps := pendingSelections;
      pendingSelections := Toggled(ps, week, day, time);
      ToggleKeepsValid(ps, week, day, time);
      showSelectionBar := |pendingSelections| > 0;
    }

    /** clearPendingSelections */
    method ClearPendingSelections()
      modifies this`pendingSelections, this`showSelectionBar, this`pendingStatus
      ensures pendingSelections == [] && !showSelectionBar && pendingStatus == MarkAvailable
      ensures Valid()
    {
      pendingSelections := [];
      showSelectionBar := false;
      pendingStatus := MarkAvailable;
    }

    /** removePendingSelection: the bar is updated only when the cell was picked. */
    method RemovePendingSelection(day: int, time: string)
      requires Valid()
      modifies this`pendingSelections, this`showSelectionBar
      ensures Valid()
      ensures pendingSelections == WithoutSelection(old(pendingSelections), day, time)
      ensures !IsPending(pendingSelections, day, time)
    {
      WithoutSelectionCells(pendingSelections, day, time);
      var index := FindCell(pendingSelections, day, time);
      if index >= 0 {
        pendingSelections := pendingSelections[..index] + pendingSelections[index + 1..];
        showSelectionBar := |pendingSelections| > 0;
      }
    }

    /** removeAvailabilityForCell */
    method RemoveAvailabilityForCell(day: int, time: string)
      requires 0 <= day < |week|
      modifies this`availabilities
      ensures availabilities == WithoutCell(old(availabilities), viewingPlayerId, week[day].iso, time)
    {
      var dateStr := week[day].iso;
      availabilities := WithoutCell(availabilities, viewingPlayerId, dateStr, time);
    }

    /** addAvailabilityForCell */
    method AddAvailabilityForCell(day: int, time: string, status: SlotStatus)
      requires 0 <= day < |week|
      requires status != Busy
      modifies this`availabilities
      ensures availabilities == WithCell(old(availabilities), viewingPlayerId, week[day].iso, time, status)
    {
      RemoveAvailabilityForCell(day, time);
      var dateStr := week[day].iso;
      availabilities := availabilities + [Avail(viewingPlayerId, dateStr, time, EndTimeFor(time), status, "")];
    }

    /**
     * applyPendingSelections, then the start of savePendingSelections: the
     * edits are made cell by cell, and the save is asked for only when a
     * player is viewed.
     */
    method ApplyPendingSelections() returns (start: SaveStart)
      requires Valid()
      modifies this`availabilities, this`loading
      ensures pendingSelections == [] ==>
        start == NothingPending && availabilities == old(availabilities) && loading == old(loading)
      ensures pendingSelections != [] ==>
        availabilities == ApplyAll(old(availabilities), week, viewingPlayerId, pendingSelections, pendingStatus)
      ensures pendingSelections != [] && !Truthy(viewingPlayerId) ==>
        start == Alerted(MissingPlayerAlert) && loading == old(loading)
      ensures pendingSelections != [] && Truthy(viewingPlayerId) ==>
        loading && start == Saving(SaveRequest(viewingPlayerId.value, WindowsOf(availabilities, viewingPlayerId),
                                               |pendingSelections|, StatusLabel(pendingStatus)))
    {
      if |pendingSelections| == 0 {
        return NothingPending;
      }
      var selectionsCount := |pendingSelections|;
      var statusLabel := StatusLabel(pendingStatus);
      ApplyEdits();
      start := SavePendingSelections(selectionsCount, statusLabel);
    }

    /** The `forEach` of applyPendingSelections: each picked cell is cleared or given the pending status. */
    method ApplyEdits()
      requires DaysIn(pendingSelections, |week|)
      modifies this`availabilities
      ensures availabilities == ApplyAll(old(availabilities), week, viewingPlayerId, pendingSelections, pendingStatus)
    {
      for i := 0 to |pendingSelections|
        invariant availabilities ==
          ApplyAll(old(availabilities), week, viewingPlayerId, pendingSelections[..i], pendingStatus)
      {
        var s := pendingSelections[i];
        assert pendingSelections[..i + 1][..i] == pendingSelections[..i];
        if pendingStatus == MarkUnavailable {
          RemoveAvailabilityForCell(s.day, s.time);
        } else {
          AddAvailabilityForCell(s.day, s.time, MarkStatus(pendingStatus));
        }
      }
      assert pendingSelections[..|pendingSelections|] == pendingSelections;
    }

    /** The start of savePendingSelections: an alert without a viewed player, else the request. */
    method SavePendingSelections(selectionsCount: nat, statusLabel: string) returns (start: SaveStart)
      modifies this`loading
      ensures !Truthy(viewingPlayerId) ==> start == Alerted(MissingPlayerAlert) && loading == old(loading)
      ensures Truthy(viewingPlayerId) ==>
        loading && start == Saving(SaveRequest(viewingPlayerId.value, WindowsOf(availabilities, viewingPlayerId),
                                               selectionsCount, statusLabel))
    {
      if !Truthy(viewingPlayerId) {
        return Alerted(MissingPlayerAlert);
      }
      var userAvailabilities := WindowsOf(availabilities, viewingPlayerId);
      loading := true;
      start := Saving(SaveRequest(viewingPlayerId.value, userAvailabilities, selectionsCount, statusLabel));
    }

    /** The store saved: the toast (when the count and the label are set), then the pending list is cleared. */
    method OnSaveSucceeded(request: SaveRequest) returns (toast: Option<string>)
      modifies this`loading, this`pendingSelections, this`showSelectionBar, this`pendingStatus
      ensures !loading && pendingSelections == [] && !showSelectionBar && pendingStatus == MarkAvailable
      ensures Valid()
      ensures request.count != 0 && request.statusLabel != "" ==> toast == Some(SavedToast(request.count, request.statusLabel))
      ensures request.count == 0 || request.statusLabel == "" ==> toast.None?
    {
      loading := false;
      if request.count != 0 && request.statusLabel != "" {
        toast := Some(SavedToast(request.count, request.statusLabel));
      } else {
        toast := None;
      }
      ClearPendingSelections();
    }

    /** The store refused: an alert, and the picked cells stay. */
    method OnSaveFailed() returns (alert: string)
      modifies this`loading
      ensures !loading && alert == SaveFailedAlert
    {
      loading := false;
      alert := SaveFailedAlert;
    }
  }
}
