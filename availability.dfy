/**
 * The weekly availability grid shared by the calendar page and its summary
 * popup: "HH:MM" times read as minutes, half-open time windows, the hourly
 * grid of slots, the status shown for a cell, and the two edits applied to
 * a cell (remove what covers it; put a one-hour window on it).
 *
 * A day of the week is given by its date string (what `getDateString`
 * produces) and the text the page shows for it; dates and locales are not
 * part of this model.
 */
module Availability {
  import opened JsText

  /** The status stored for a window. */
  datatype SlotStatus = Available | Maybe | Busy

  /** The status the selection bar applies: a status, or removal. */
  datatype Mark = MarkAvailable | MarkMaybe | MarkUnavailable

  /**
   * A stored window of one player on one date. `userId` is the viewing
   * player's id when the window was written, which may be null (None).
   */
  datatype Avail = Avail(userId: Option<string>, date: string, startTime: string, endTime: string,
                         status: SlotStatus, notes: string)

  /** A day of the displayed week: its date string and its short display text. */
  datatype WeekDay = WeekDay(iso: string, display: string, dayMonthYear: string)

  // ---------------------------------------------------------------------------
  // Times

  function AddOpt(a: Option<int>, b: Option<int>): (r: Option<int>)
    ensures r.Some? <==> a.Some? && b.Some?
    ensures r.Some? ==> r.value == a.value + b.value
  {
    if a.Some? && b.Some? then Some(a.value + b.value) else None
  }

  /**
   * `const [hours, minutes] = time.split(":").map(Number); hours * 60 + minutes`:
   * a missing or non-numeric part makes the result NaN (None).
   */
  function TimeToMinutes(time: string): (m: Option<int>)
  {
    var parts := Split(time, ':');
    var hours := NumberOf(parts[0]);
    var minutes := if |parts| >= 2 then NumberOf(parts[1]) else None;
    AddOpt(if hours.Some? then Some(hours.value * 60) else None, minutes)
  }

  /** Two decimal digits, as the grid writes hours and minutes. */
  function Pad2(n: nat): (s: string)
    requires n < 100
    ensures |s| == 2 && AllDigits(s) && ':' !in s
  {
    [DigitChar(n / 10), DigitChar(n % 10)]
  }

  lemma Pad2Value(n: nat)
    requires n < 100
    ensures NumberOf(Pad2(n)) == Some(n)
  {
    var s := Pad2(n);
    assert s[..1] == [s[0]] && s[..1][..0] == [];
    assert DecimalValue(s[..1]) == DigitValue(s[0]);
    assert DecimalValue(s) == DecimalValue(s[..1]) * 10 + DigitValue(s[1]);
  }

  /** "HH:MM" reads as HH * 60 + MM. */
  lemma TimeToMinutesOf(h: nat, m: nat)
    requires h < 100 && m < 100
    ensures TimeToMinutes(Pad2(h) + ":" + Pad2(m)) == Some(h * 60 + m)
  {
    SplitAt(Pad2(h), Pad2(m), ':');
    assert Pad2(h) + ":" + Pad2(m) == Pad2(h) + [':'] + Pad2(m);
    SplitNoSeparator(Pad2(m), ':');
    Pad2Value(h);
    Pad2Value(m);
  }

  /** `timeMin >= startMin && timeMin < endMin`; any NaN makes it false. */
  predicate IsTimeInRange(time: string, startTime: string, endTime: string)
  {
    var t := TimeToMinutes(time);
    var s := TimeToMinutes(startTime);
    var e := TimeToMinutes(endTime);
    t.Some? && s.Some? && e.Some? && t.value >= s.value && t.value < e.value
  }

  /** The window is half-open: it holds its start, not its end, and nothing when it is empty. */
  lemma HalfOpen(time: string, startTime: string, endTime: string)
    ensures IsTimeInRange(time, startTime, endTime) <==>
      TimeToMinutes(time).Some? && TimeToMinutes(startTime).Some? && TimeToMinutes(endTime).Some? &&
      TimeToMinutes(startTime).value <= TimeToMinutes(time).value < TimeToMinutes(endTime).value
    ensures (TimeToMinutes(startTime).Some? && TimeToMinutes(endTime).Some? &&
             TimeToMinutes(endTime).value <= TimeToMinutes(startTime).value) ==>
      !IsTimeInRange(time, startTime, endTime)
    ensures (TimeToMinutes(startTime).Some? && TimeToMinutes(endTime).Some? &&
             TimeToMinutes(startTime).value < TimeToMinutes(endTime).value) ==>
      IsTimeInRange(startTime, startTime, endTime) && !IsTimeInRange(endTime, startTime, endTime)
  {
  }

  // ---------------------------------------------------------------------------
  // The hourly grid

  /** "HH:00" */
  function HourText(h: nat): (s: string)
    requires h < 100
  {
    Pad2(h) + ":" + Pad2(0)
  }

  /** `n` consecutive hours from `h`, as "HH:00". */
  function HoursFrom(h: nat, n: nat): (s: seq<string>)
    requires h + n <= 100
    ensures |s| == n
    decreases n
  {
    if n == 0 then [] else [HourText(h)] + HoursFrom(h + 1, n - 1)
  }

  lemma {:induction false} HoursFromAt(h: nat, n: nat, i: int)
    requires h + n <= 100 && 0 <= i < n
    ensures HoursFrom(h, n)[i] == HourText(h + i)
    decreases n
  {
    if i > 0 {
      HoursFromAt(h + 1, n - 1, i - 1);
    }
  }

  /** The grid rows, one an hour from 06:00 to 21:00. */
  const TimeSlots: seq<string> := HoursFrom(6, 16)

  /** The end written for the last slot of the day. */
  const LastEnd: string := HourText(23)

  lemma TimeSlotsListed()
    ensures forall i :: 0 <= i < |TimeSlots| ==> TimeSlots[i] == HourText(i + 6)
  {
    forall i | 0 <= i < |TimeSlots|
      ensures TimeSlots[i] == HourText(i + 6)
    {
      HoursFromAt(6, 16, i);
    }
  }

  /** The rows as the page lists them. */
  lemma TimeSlotsText()
    ensures |TimeSlots| == 16
    ensures TimeSlots[0] == "06:00" && TimeSlots[15] == "21:00" && LastEnd == "23:00"
  {
    HoursFromAt(6, 16, 0);
    HoursFromAt(6, 16, 15);
  }

  /** `this.timeSlots.findIndex(slot => slot.time === time)` */
  function SlotIndex(time: string): (k: int)
    ensures -1 <= k < |TimeSlots|
    ensures k >= 0 ==> TimeSlots[k] == time && forall j :: 0 <= j < k ==> TimeSlots[j] != time
    ensures k == -1 <==> time !in TimeSlots
  {
    FirstIndexFrom(TimeSlots, time, 0)
  }

  function FirstIndexFrom(s: seq<string>, x: string, from: nat): (k: int)
    requires from <= |s|
    ensures -1 <= k < |s|
    ensures k >= 0 ==> from <= k && s[k] == x && forall j :: from <= j < k ==> s[j] != x
    ensures k == -1 <==> forall j :: from <= j < |s| ==> s[j] != x
    decreases |s| - from
  {
    if from == |s| then -1
    else if s[from] == x then from
    else FirstIndexFrom(s, x, from + 1)
  }

  /**
   * The end of the one-hour window put on a cell: the next grid time, or
   * "23:00" for the last slot. A time off the grid (index -1) gets the
   * first grid time, as `Math.min(-1 + 1, 15)` picks it.
   */
  function EndTimeFor(time: string): (e: string)
    ensures SlotIndex(time) == |TimeSlots| - 1 ==> e == LastEnd
    ensures 0 <= SlotIndex(time) < |TimeSlots| - 1 ==> e == TimeSlots[SlotIndex(time) + 1]
    ensures SlotIndex(time) == -1 ==> e == TimeSlots[0]
  {
    var startIndex := SlotIndex(time);
    var endIndex := if startIndex + 1 < |TimeSlots| - 1 then startIndex + 1 else |TimeSlots| - 1;
    if startIndex == |TimeSlots| - 1 then LastEnd else TimeSlots[endIndex]
  }

  lemma HourMinutes(h: nat)
    requires h < 100
    ensures TimeToMinutes(HourText(h)) == Some(h * 60)
  {
    TimeToMinutesOf(h, 0);
  }

  lemma SlotMinutes(i: int)
    requires 0 <= i < |TimeSlots|
    ensures TimeToMinutes(TimeSlots[i]) == Some((i + 6) * 60)
  {
    TimeSlotsListed();
    HourMinutes(i + 6);
  }

  /** Grid times are distinct, so a grid time's index is its position. */
  lemma SlotIndexOf(i: int)
    requires 0 <= i < |TimeSlots|
    ensures SlotIndex(TimeSlots[i]) == i
  {
    var k := SlotIndex(TimeSlots[i]);
    if k != i {
      SlotMinutes(i);
      SlotMinutes(k);
    }
  }

  /** The window put on a grid cell ends one hour after it (two for the last slot). */
  lemma EndTimeMinutes(i: int)
    requires 0 <= i < |TimeSlots|
    ensures i < |TimeSlots| - 1 ==> TimeToMinutes(EndTimeFor(TimeSlots[i])) == Some((i + 7) * 60)
    ensures i == |TimeSlots| - 1 ==> TimeToMinutes(EndTimeFor(TimeSlots[i])) == Some(23 * 60)
  {
    SlotIndexOf(i);
    var e := EndTimeFor(TimeSlots[i]);
    if i == |TimeSlots| - 1 {
      assert e == LastEnd;
      HourMinutes(23);
      assert TimeToMinutes(e) == Some(23 * 60);
    } else {
      assert e == TimeSlots[i + 1];
      SlotMinutes(i + 1);
      assert TimeToMinutes(e) == Some((i + 7) * 60);
    }
  }

  /** A window put on a grid cell covers that grid time and no other. */
  lemma WindowCoversOnlyItsSlot(i: int, j: int)
    requires 0 <= i < |TimeSlots| && 0 <= j < |TimeSlots|
    ensures IsTimeInRange(TimeSlots[j], TimeSlots[i], EndTimeFor(TimeSlots[i])) <==> i == j
  {
    EndTimeMinutes(i);
    SlotMinutes(i);
    SlotMinutes(j);
  }

  /** The same, for grid times given as strings. */
  lemma WindowCoversOnlyItsTime(time: string, other: string)
    requires time in TimeSlots && other in TimeSlots
    ensures IsTimeInRange(other, time, EndTimeFor(time)) <==> other == time
  {
    WindowCoversOnlyItsSlot(SlotIndex(time), SlotIndex(other));
  }

  // ---------------------------------------------------------------------------
  // Cells

  /** The window belongs to the viewing player (`===`, so null matches null), is on the date and covers the time. */
  predicate Covers(av: Avail, viewer: Option<string>, date: string, time: string)
  {
    av.userId == viewer && av.date == date && IsTimeInRange(time, av.startTime, av.endTime)
  }

  /** The index `availabilities.find(covering)` stops at, or -1 when no window covers the cell. */
  function FindCovering(avs: seq<Avail>, viewer: Option<string>, date: string, time: string): (k: int)
    ensures -1 <= k < |avs|
    ensures k == -1 <==> forall i :: 0 <= i < |avs| ==> !Covers(avs[i], viewer, date, time)
    ensures k >= 0 ==> FirstCovering(avs, viewer, date, time, k)
  {
    if avs == [] then -1
    else if Covers(avs[0], viewer, date, time) then 0
    else
      var k := FindCovering(avs[1..], viewer, date, time);
      if k == -1 then -1 else k + 1
  }

  /** `availabilities.find(covering)?.status || null` */
  function StatusAt(avs: seq<Avail>, viewer: Option<string>, date: string, time: string): (r: Option<SlotStatus>)
    ensures r.None? <==> forall i :: 0 <= i < |avs| ==> !Covers(avs[i], viewer, date, time)
    ensures r.Some? ==> exists i :: FirstCovering(avs, viewer, date, time, i) && avs[i].status == r.value
  {
    var k := FindCovering(avs, viewer, date, time);
    if k == -1 then None else Some(avs[k].status)
  }

  /** `avs[i]` is the first window that covers the cell. */
  predicate FirstCovering(avs: seq<Avail>, viewer: Option<string>, date: string, time: string, i: int)
  {
    0 <= i < |avs| && Covers(avs[i], viewer, date, time) &&
    forall j :: 0 <= j < i ==> !Covers(avs[j], viewer, date, time)
  }

  /** removeAvailabilityForCell: every window of the viewing player on the date that covers the time goes. */
  function WithoutCell(avs: seq<Avail>, viewer: Option<string>, date: string, time: string): (r: seq<Avail>)
    ensures forall i :: 0 <= i < |r| ==> !Covers(r[i], viewer, date, time) && r[i] in avs
    ensures forall i :: 0 <= i < |avs| && !Covers(avs[i], viewer, date, time) ==> avs[i] in r
    ensures IsSubsequence(r, avs)
  {
    FilterIsSubsequence(avs, av => !Covers(av, viewer, date, time));
    Filter(avs, av => !Covers(av, viewer, date, time))
  }

  lemma WithoutCellFree(avs: seq<Avail>, viewer: Option<string>, date: string, time: string)
    ensures StatusAt(WithoutCell(avs, viewer, date, time), viewer, date, time).None?
  {
  }

  /** The window addAvailabilityForCell appends: the cell's time to the next grid time. */
  function NewWindow(viewer: Option<string>, date: string, time: string, status: SlotStatus): (av: Avail)
    ensures av.userId == viewer && av.date == date && av.startTime == time && av.status == status
    ensures av.endTime == EndTimeFor(time) && av.notes == ""
  {
    Avail(viewer, date, time, EndTimeFor(time), status, "")
  }

  /** addAvailabilityForCell: the cell is cleared, then the new window appended. */
  function WithCell(avs: seq<Avail>, viewer: Option<string>, date: string, time: string, status: SlotStatus): (r: seq<Avail>)
    ensures |r| >= 1 && r[|r| - 1] == NewWindow(viewer, date, time, status)
    ensures r[..|r| - 1] == WithoutCell(avs, viewer, date, time)
  {
    WithoutCell(avs, viewer, date, time) + [NewWindow(viewer, date, time, status)]
  }

  /** A covering window appended after windows that do not cover the cell is the one that shows. */
  lemma StatusAtAppended(a: seq<Avail>, x: Avail, viewer: Option<string>, date: string, time: string)
    requires forall i :: 0 <= i < |a| ==> !Covers(a[i], viewer, date, time)
    requires Covers(x, viewer, date, time)
    ensures StatusAt(a + [x], viewer, date, time) == Some(x.status)
  {
    var r := a + [x];
    assert r[|a|] == x;
    assert forall i :: 0 <= i < |a| ==> r[i] == a[i];
  }

  /** After a status is put on a grid cell, that cell shows it. */
  lemma WithCellStatus(avs: seq<Avail>, viewer: Option<string>, date: string, time: string, status: SlotStatus)
    requires time in TimeSlots
    ensures StatusAt(WithCell(avs, viewer, date, time, status), viewer, date, time) == Some(status)
  {
    WindowCoversOnlyItsTime(time, time);
    StatusAtAppended(WithoutCell(avs, viewer, date, time), NewWindow(viewer, date, time, status), viewer, date, time);
  }

  /** A window on a grid cell covers another grid cell only when it is that cell. */
  lemma NewWindowCovers(viewer: Option<string>, date: string, time: string, status: SlotStatus,
                        date2: string, time2: string)
    requires time in TimeSlots && time2 in TimeSlots
    ensures Covers(NewWindow(viewer, date, time, status), viewer, date2, time2) <==> date2 == date && time2 == time
  {
    WindowCoversOnlyItsTime(time, time2);
  }

  /**
   * The cell is shown by the window a status edit put on it and by no other:
   * that window is present, and every window covering the cell is that one.
   */
  predicate OnlyWindow(avs: seq<Avail>, viewer: Option<string>, date: string, time: string, status: SlotStatus)
  {
    NewWindow(viewer, date, time, status) in avs &&
    forall i :: 0 <= i < |avs| && Covers(avs[i], viewer, date, time) ==> avs[i] == NewWindow(viewer, date, time, status)
  }

  lemma OnlyWindowStatus(avs: seq<Avail>, viewer: Option<string>, date: string, time: string, status: SlotStatus)
    requires time in TimeSlots
    requires OnlyWindow(avs, viewer, date, time, status)
    ensures StatusAt(avs, viewer, date, time) == Some(status)
  {
    NewWindowCovers(viewer, date, time, status, date, time);
    var k :| 0 <= k < |avs| && avs[k] == NewWindow(viewer, date, time, status);
    assert Covers(avs[k], viewer, date, time);
  }

  lemma WithCellOnlyWindow(avs: seq<Avail>, viewer: Option<string>, date: string, time: string, status: SlotStatus)
    requires time in TimeSlots
    ensures OnlyWindow(WithCell(avs, viewer, date, time, status), viewer, date, time, status)
  {
    var r := WithCell(avs, viewer, date, time, status);
    var w := WithoutCell(avs, viewer, date, time);
    assert r == w + [NewWindow(viewer, date, time, status)];
    assert r[|w|] == NewWindow(viewer, date, time, status);
    assert forall i :: 0 <= i < |w| ==> r[i] == w[i];
  }

  /** Editing another grid cell leaves a cell's own window as the only one showing it. */
  lemma WithCellKeepsOnlyWindow(avs: seq<Avail>, viewer: Option<string>, date: string, time: string, status: SlotStatus,
                                date2: string, time2: string, status2: SlotStatus)
    requires time in TimeSlots && time2 in TimeSlots
    requires date2 != date || time2 != time
    requires OnlyWindow(avs, viewer, date, time, status)
    ensures OnlyWindow(WithCell(avs, viewer, date2, time2, status2), viewer, date, time, status)
  {
    var nw := NewWindow(viewer, date, time, status);
    var w := WithoutCell(avs, viewer, date2, time2);
    var r := WithCell(avs, viewer, date2, time2, status2);
    NewWindowCovers(viewer, date, time, status, date2, time2);
    NewWindowCovers(viewer, date2, time2, status2, date, time);
    var k :| 0 <= k < |avs| && avs[k] == nw;
    assert nw in w;
    assert r == w + [NewWindow(viewer, date2, time2, status2)];
    forall i | 0 <= i < |r| && Covers(r[i], viewer, date, time)
      ensures r[i] == nw
    {
      if i < |w| {
        assert r[i] == w[i];
        var j :| 0 <= j < |avs| && avs[j] == w[i];
      }
    }
  }

  /** Clearing a cell keeps every clear cell clear. */
  lemma WithoutCellKeepsFree(avs: seq<Avail>, viewer: Option<string>, date: string, time: string,
                             date2: string, time2: string)
    requires StatusAt(avs, viewer, date, time).None?
    ensures StatusAt(WithoutCell(avs, viewer, date2, time2), viewer, date, time).None?
  {
    var w := WithoutCell(avs, viewer, date2, time2);
    forall i | 0 <= i < |w|
      ensures !Covers(w[i], viewer, date, time)
    {
      var j :| 0 <= j < |avs| && avs[j] == w[i];
    }
  }

  // ---------------------------------------------------------------------------
  // Labels

  /** getStatusLabel */
  function StatusLabel(m: Mark): (text: string)
  {
    match m
    case MarkAvailable => "Disponível"
    case MarkMaybe => "Talvez"
    case MarkUnavailable => "Remover"
  }

  /** The labels are told apart, and "Remover" is the removal. */
  lemma StatusLabelsDistinct(a: Mark, b: Mark)
    ensures StatusLabel(a) == StatusLabel(b) <==> a == b
    ensures StatusLabel(a) == "Remover" <==> a == MarkUnavailable
  {
  }

  /** getStatusClasses on the value getSlotStatus returns. */
  function StatusClass(s: Option<SlotStatus>): (c: string)
    ensures s.None? <==> c == "status-free"
  {
    if s.None? then "status-free"
    else match s.value
      case Available => "status-available"
      case Maybe => "status-maybe"
      case Busy => "status-busy"
  }

  /** The status a mark writes, when it writes one. */
  function MarkStatus(m: Mark): (s: SlotStatus)
    requires m != MarkUnavailable
    ensures m == MarkAvailable ==> s == Available
    ensures m == MarkMaybe ==> s == Maybe
  {
    if m == MarkAvailable then Available else Maybe
  }
}
