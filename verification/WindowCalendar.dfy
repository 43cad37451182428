/**
 A campaign's sending windows, in order, counted from its start
 (backend/app/modules/campaigns/scheduling.py).

 Time zones are outside the model: a local day arrives with its window already resolved to
 instants (seconds). The day list is what the calendar visits: the first day and the 3,650 after it,
 3,651 in all.
 */
module WindowCalendar {
  import opened Wrappers

  datatype Window = Window(start: real, end: real) {
    function Length(): real { end - start }
  }

  /** One local date: is its weekday allowed, and its window resolved to instants. */
  datatype Day = Day(allowed: bool, start: real, end: real)

  /** What a day contributes: nothing, or its window clipped to start no earlier than `lower`. */
  function DayWindow(day: Day, lower: real): Option<Window> {
    if !day.allowed || day.end <= day.start || day.end <= lower then None
    else Some(Window(if day.start < lower then lower else day.start, day.end))
  }

  /** Every window of the horizon, found eagerly. */
  function AllWindows(days: seq<Day>, lower: real): seq<Window> {
    if days == [] then []
    else AllWindows(days[..|days| - 1], lower) +
         match DayWindow(days[|days| - 1], lower) case None => [] case Some(w) => [w]
  }

  /** The `index`th window; past the end, the last one. */
  function WindowAt(windows: seq<Window>, index: nat): Window
    requires windows != []
  {
    windows[if index < |windows| then index else |windows| - 1]
  }

  /** Windows have positive length, follow one another and do not overlap. */
  ghost predicate Ordered(windows: seq<Window>) {
    && (forall i | 0 <= i < |windows| :: windows[i].start < windows[i].end)
    && (forall i, j | 0 <= i < j < |windows| :: windows[i].end <= windows[j].start)
  }

  /** Local dates resolve in order: an earlier day's window ends before a later day's begins. */
  ghost predicate DaysInOrder(days: seq<Day>) {
    forall i, j | 0 <= i < j < |days| :: days[i].end <= days[j].start
  }

  lemma {:induction false} AllWindowsPrefix(days: seq<Day>, n: nat, lower: real)
    requires n <= |days|
    ensures AllWindows(days[..n], lower) <= AllWindows(days, lower)
  {
    if n == |days| {
      assert days[..n] == days;
    } else {
      AllWindowsPrefix(days[..|days| - 1], n, lower);
      assert days[..|days| - 1][..n] == days[..n];
    }
  }

  /** Each window comes from a day: it keeps that day's end and never starts before `lower`. */
  lemma {:induction false} AllWindowsSource(days: seq<Day>, lower: real, w: Window) returns (d: nat)
    requires w in AllWindows(days, lower)
    ensures d < |days| && DayWindow(days[d], lower) == Some(w)
  {
    d := |days| - 1;
    if DayWindow(days[d], lower) != Some(w) {
      d := AllWindowsSource(days[..d], lower, w);
    }
  }

  /** For every list of days in order, the windows found are ordered, disjoint and never before the campaign start. */
  lemma {:induction false} CalendarIsOrdered(days: seq<Day>, lower: real)
    requires DaysInOrder(days)
    ensures Ordered(AllWindows(days, lower))
    ensures forall w | w in AllWindows(days, lower) :: lower <= w.start
  {
    if days != [] {
      var n := |days| - 1;
      CalendarIsOrdered(days[..n], lower);
      var before := AllWindows(days[..n], lower);
      match DayWindow(days[n], lower) {
        case None =>
        case Some(last) =>
          forall w | w in before ensures w.end <= last.start {
            var d := AllWindowsSource(days[..n], lower, w);
          }
          forall i | 0 <= i < |before| ensures before[i].end <= last.start {
            assert before[i] in before;
          }
      }
    }
  }

  /** An allowed weekday whose window is not empty and still open at `lower`. */
  predicate HasRoom(day: Day, lower: real) { day.allowed && day.start < day.end && lower < day.end }

  function DaysWithRoom(days: seq<Day>, lower: real): set<nat> {
    set d: nat | d < |days| && HasRoom(days[d], lower)
  }

  /** The day's own end, and its own start unless the campaign starts later. */
  predicate IsWindowOf(w: Window, day: Day, lower: real) {
    w.end == day.end && w.start == if day.start < lower then lower else day.start
  }

  lemma LastDayHasRoom(days: seq<Day>, lower: real)
    requires days != []
    ensures var n := |days| - 1;
            DaysWithRoom(days, lower) == DaysWithRoom(days[..n], lower) + if HasRoom(days[n], lower) then {n} else {}
    ensures |DaysWithRoom(days, lower)|
            == |DaysWithRoom(days[..|days| - 1], lower)| + if HasRoom(days[|days| - 1], lower) then 1 else 0
  {
    hide HasRoom;
    assert forall d: nat | d < |days| - 1 :: days[d] == days[..|days| - 1][d];
  }

  lemma LastDayGivesWindow(days: seq<Day>, lower: real)
    requires days != []
    ensures var n := |days| - 1;
            if HasRoom(days[n], lower) then
              exists w :: IsWindowOf(w, days[n], lower) && AllWindows(days, lower) == AllWindows(days[..n], lower) + [w]
            else AllWindows(days, lower) == AllWindows(days[..n], lower)
  {
    var w := DayWindow(days[|days| - 1], lower);
    if w.Some? { assert IsWindowOf(w.value, days[|days| - 1], lower); }
  }

  /** Days with room and windows are one to one and in the same order; a day without room has no window. */
  lemma {:induction false} OneWindowPerDay(days: seq<Day>, lower: real)
    ensures |AllWindows(days, lower)| == |DaysWithRoom(days, lower)|
    ensures forall d | d in DaysWithRoom(days, lower) ::
              var k := |DaysWithRoom(days[..d], lower)|;
              k < |AllWindows(days, lower)| && IsWindowOf(AllWindows(days, lower)[k], days[d], lower)
  {
    if days != [] {
      var n := |days| - 1;
      var init := days[..n];
      OneWindowPerDay(init, lower);
      LastDayHasRoom(days, lower);
      LastDayGivesWindow(days, lower);
      hide AllWindows, HasRoom, IsWindowOf;
      forall d | d in DaysWithRoom(days, lower)
        ensures var k := |DaysWithRoom(days[..d], lower)|;
                k < |AllWindows(days, lower)| && IsWindowOf(AllWindows(days, lower)[k], days[d], lower)
      {
        if d < n {
          assert init[..d] == days[..d] && init[d] == days[d] && d in DaysWithRoom(init, lower);
        }
      }
    }
  }

  /**
   The calendar object: windows are found lazily and remembered. `Window` answers from the eager
   list whatever has been asked before, so the cache cannot be observed.
   */
  class Calendar {
    const days: seq<Day>
    const lower: real
    var nextDate: nat
    var windows: seq<Window>

    ghost predicate Valid()
      reads this
    {
      nextDate <= |days| && windows == AllWindows(days[..nextDate], lower)
    }

    constructor (days: seq<Day>, lower: real)
      ensures Valid() && this.days == days && this.lower == lower
    {
      this.days, this.lower := days, lower;
      nextDate, windows := 0, [];
    }

    method FindNext() returns (found: bool)
      requires Valid()
      modifies this
      ensures Valid()
      ensures found ==> |windows| == |old(windows)| + 1
      ensures !found ==> windows == AllWindows(days, lower)
      ensures old(nextDate) <= nextDate
      ensures found ==> old(nextDate) < nextDate
    {
      while nextDate < |days|
        invariant Valid() && windows == old(windows) && old(nextDate) <= nextDate
      {
        var day := days[nextDate];
        nextDate := nextDate + 1;
        assert days[..nextDate][..nextDate - 1] == days[..nextDate - 1];
        var w := DayWindow(day, lower);
        if w.Some? {
          windows := windows + [w.value];
          return true;
        }
      }
      assert days[..nextDate] == days;
      return false;
    }

    method Window(index: nat) returns (r: Result<Window, string>)
      requires Valid()
      modifies this
      ensures Valid()
      ensures r.Failure? <==> AllWindows(days, lower) == []
      ensures r.Success? ==> r.value == WindowAt(AllWindows(days, lower), index)
      ensures r.Failure? <==> DaysWithRoom(days, lower) == {}
      ensures var n := |DaysWithRoom(days, lower)|;
              forall d | d in DaysWithRoom(days, lower)
                && |DaysWithRoom(days[..d], lower)| == (if index < n then index else n - 1) ::
                r.Success? && IsWindowOf(r.value, days[d], lower)
    {
      OneWindowPerDay(days, lower);
      var more := true;
      while more && |windows| <= index
        invariant Valid()
        invariant !more ==> windows == AllWindows(days, lower)
        decreases more, |days| - nextDate
      {
        more := FindNext();
      }
      AllWindowsPrefix(days, nextDate, lower);
      if windows == [] {
        return Failure("No eligible sending window found within the configured bound");
      }
      return Success(windows[if index < |windows| then index else |windows| - 1]);
    }
  }
}
