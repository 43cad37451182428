/**
 How many messages of one mailbox any stretch of time can hold (backend/app/modules/campaigns/pacing.py),
 over whatever windows the calendar has: clipped first windows, short days and skipped days included.
 */
module RollingDay {
  import opened Arithmetic
  import opened Wrappers
  import opened WindowCalendar
  import opened Pacing
  import opened PacingSpacing

  // ---- The bound and its exact condition -------------------------------------------------------

  /** All these places are due in the half-open interval of this length; each place has its own jitter. */
  ghost predicate DueDuring(windows: seq<Window>, S: set<nat>, jitter: nat -> Fraction, perDay: int, spacing: nat,
                            from: real, length: real)
    requires perDay >= 1
  {
    forall p | p in S :: p / perDay < |windows| && from <= Due(windows, p, perDay, spacing, jitter(p)) < from + length
  }

  /** No interval of this length holds more than `n` messages of the mailbox, whatever the jitter. */
  ghost predicate HoldsAtMost(windows: seq<Window>, perDay: int, spacing: nat, length: real, n: nat)
    requires perDay >= 1
  {
    forall S: set<nat>, jitter: nat -> Fraction, from: real
      | DueDuring(windows, S, jitter, perDay, spacing, from, length) :: |S| <= n
  }

  /** From the latest time of a place to the earliest time of the place `n` further on. */
  function Gap(windows: seq<Window>, p: nat, n: nat, perDay: int, spacing: nat): real
    requires perDay >= 1 && p / perDay < |windows| && (p + n) / perDay < |windows|
  {
    Due(windows, p + n, perDay, spacing, 0.0) - Due(windows, p, perDay, spacing, 1.0)
  }

  ghost predicate PlacesApart(windows: seq<Window>, perDay: int, spacing: nat, length: real, n: nat)
    requires perDay >= 1
  {
    forall p: nat | p / perDay < |windows| && (p + n) / perDay < |windows| ::
      Gap(windows, p, n, perDay, spacing) >= length
  }

  lemma ScaledMonotone(f: Fraction, f': Fraction, cap: real)
    requires f <= f' && 0.0 <= cap
    ensures Scaled(f, cap) <= Scaled(f', cap)
  {
    MulMono(f, f', cap);
  }

  /** More jitter never makes a message earlier. */
  lemma JitterMonotone(w: Window, k: nat, perDay: int, spacing: nat, f: Fraction, f': Fraction)
    requires w.start < w.end && perDay >= 1 && f <= f'
    ensures DueInWindow(w, k, perDay, spacing, f) <= DueInWindow(w, k, perDay, spacing, f')
  {
    hide DueInWindow, Scaled, SlotStart, SlotSeconds;
    var s, x, j := SlotParts(w, k, perDay, spacing, f);
    var s', x', j' := SlotParts(w, k, perDay, spacing, f');
    if JitterCap(s, spacing) > 0.0 { ScaledMonotone(f, f', JitterCap(s, spacing)); }
  }

  /** Order by place and by jitter together: the earliest time of a later place bounds every later time. */
  lemma EarliestBounds(windows: seq<Window>, p: nat, q: nat, perDay: int, spacing: nat, f: Fraction)
    requires Ordered(windows) && perDay >= 1 && p <= q && q / perDay < |windows|
    ensures p / perDay < |windows|
    ensures Due(windows, p, perDay, spacing, 0.0) <= Due(windows, q, perDay, spacing, f)
  {
    hide DueInWindow;
    if p < q {
      DueMonotone(windows, p, q, perDay, spacing, 0.0, f);
    } else {
      JitterMonotone(windows[p / perDay], p % perDay, perDay, spacing, 0.0, f);
    }
  }

  lemma ApartBoundsSet(windows: seq<Window>, S: set<nat>, jitter: nat -> Fraction, perDay: int, spacing: nat,
                       from: real, length: real, n: nat)
    requires Ordered(windows) && perDay >= 1 && PlacesApart(windows, perDay, spacing, length, n)
    requires DueDuring(windows, S, jitter, perDay, spacing, from, length)
    ensures |S| <= n
  {
    hide Due;
    if S != {} {
      var m := LeastElement(S);
      forall q | q in S ensures q < m + n {
        if q >= m + n { FarApart(windows, m, q, perDay, spacing, length, n, jitter(m), jitter(q)); }
      }
      SpanBoundsSize(S, m, n);
    }
  }

  /** Two places at least `n` apart are due at least that long apart. */
  lemma FarApart(windows: seq<Window>, m: nat, q: nat, perDay: int, spacing: nat, length: real, n: nat,
                 f: Fraction, f': Fraction)
    requires Ordered(windows) && perDay >= 1 && PlacesApart(windows, perDay, spacing, length, n)
    requires m + n <= q && q / perDay < |windows|
    ensures m / perDay < |windows|
    ensures Due(windows, q, perDay, spacing, f') - Due(windows, m, perDay, spacing, f) >= length
  {
    hide Due;
    QuotientMonotone(m, q, perDay);
    QuotientMonotone(m + n, q, perDay);
    EarliestBounds(windows, m + n, q, perDay, spacing, f');
    LatestBounds(windows, m, perDay, spacing, f);
    assert Gap(windows, m, n, perDay, spacing) >= length;
  }

  lemma LatestBounds(windows: seq<Window>, p: nat, perDay: int, spacing: nat, f: Fraction)
    requires Ordered(windows) && perDay >= 1 && p / perDay < |windows|
    ensures Due(windows, p, perDay, spacing, f) <= Due(windows, p, perDay, spacing, 1.0)
  {
    hide DueInWindow;
    JitterMonotone(windows[p / perDay], p % perDay, perDay, spacing, f, 1.0);
  }

  /** The places from `p` to `p + n`. */
  ghost function Stretch(p: nat, n: nat): (S: set<nat>)
    ensures forall q :: q in S <==> p <= q <= p + n
    ensures |S| == n + 1
  {
    if n == 0 then {p} else Stretch(p, n - 1) + {p + n}
  }

  /** Two places `n` apart that come too close, the first as late and the others as early as jitter allows. */
  lemma CloseStretch(windows: seq<Window>, p: nat, perDay: int, spacing: nat, length: real, n: nat)
    requires Ordered(windows) && perDay >= 1 && length > 0.0
    requires p / perDay < |windows| && (p + n) / perDay < |windows|
    requires Gap(windows, p, n, perDay, spacing) < length
    ensures !HoldsAtMost(windows, perDay, spacing, length, n)
  {
    hide Due;
    var S, from := Stretch(p, n), Due(windows, p, perDay, spacing, 1.0);
    var jitter: nat -> Fraction := (q: nat) => if q == p then 1.0 else 0.0;
    forall q | q in S
      ensures q / perDay < |windows| && from <= Due(windows, q, perDay, spacing, jitter(q)) < from + length
    {
      if q > p {
        QuotientMonotone(q, p + n, perDay);
        EarliestBounds(windows, q, p + n, perDay, spacing, 0.0);
        LatestThenLater(windows, p, q, perDay, spacing);
      }
    }
    assert DueDuring(windows, S, jitter, perDay, spacing, from, length);
  }

  lemma LatestThenLater(windows: seq<Window>, p: nat, q: nat, perDay: int, spacing: nat)
    requires Ordered(windows) && perDay >= 1 && p < q && q / perDay < |windows|
    ensures p / perDay < |windows|
    ensures Due(windows, p, perDay, spacing, 1.0) <= Due(windows, q, perDay, spacing, 0.0)
  {
    DueMonotone(windows, p, q, perDay, spacing, 1.0, 0.0);
  }

  /**
   Exactly when intervals of a length hold at most `n` messages, for every calendar, spacing and number:
   when any two places `n` apart are that long apart, the first as late and the second as early as can be.
   */
  lemma HoldsAtMostIff(windows: seq<Window>, perDay: int, spacing: nat, length: real, n: nat)
    requires Ordered(windows) && perDay >= 1 && length > 0.0
    ensures HoldsAtMost(windows, perDay, spacing, length, n) <==> PlacesApart(windows, perDay, spacing, length, n)
  {
    hide Due, DueDuring;
    if PlacesApart(windows, perDay, spacing, length, n) {
      forall S: set<nat>, jitter: nat -> Fraction, from: real
        | DueDuring(windows, S, jitter, perDay, spacing, from, length) ensures |S| <= n
      {
        ApartBoundsSet(windows, S, jitter, perDay, spacing, from, length, n);
      }
    } else {
      var p: nat :| p / perDay < |windows| && (p + n) / perDay < |windows|
                    && Gap(windows, p, n, perDay, spacing) < length;
      CloseStretch(windows, p, perDay, spacing, length, n);
    }
  }

  // ---- The spacing of a whole calendar -----------------------------------------------------------

  /** Any two of the mailbox's messages are the spacing apart, whatever the jitter. */
  ghost predicate CalendarSpaced(windows: seq<Window>, perDay: int, spacing: nat)
    requires perDay >= 1
  {
    forall p: nat, q: nat, f: Fraction, f': Fraction
      | p < q && p / perDay < |windows| && q / perDay < |windows| ::
      Due(windows, q, perDay, spacing, f') - Due(windows, p, perDay, spacing, f) >= spacing as real
  }

  /** From the last slot of a window, at its latest, to the first slot of the next one, at its earliest. */
  function TurnGap(windows: seq<Window>, i: nat, perDay: int, spacing: nat): real
    requires perDay >= 1 && i + 1 < |windows|
  {
    SlotGap(windows[i], perDay - 1, windows[i + 1], 0, perDay, spacing)
  }

  lemma SpacedIfNeighboursApart(windows: seq<Window>, perDay: int, spacing: nat)
    requires Ordered(windows) && perDay >= 1 && PlacesApart(windows, perDay, spacing, spacing as real, 1)
    ensures CalendarSpaced(windows, perDay, spacing)
  {
    hide Due, PlacesApart;
    forall p: nat, q: nat, f: Fraction, f': Fraction
      | p < q && p / perDay < |windows| && q / perDay < |windows|
      ensures Due(windows, q, perDay, spacing, f') - Due(windows, p, perDay, spacing, f) >= spacing as real
    {
      FarApart(windows, p, q, perDay, spacing, spacing as real, 1, f, f');
    }
  }

  /** A place and the next one: in one window, or at the turn from one window to the next. */
  lemma NextPlace(p: nat, perDay: int)
    requires perDay >= 1
    ensures p % perDay + 1 < perDay ==> (p + 1) / perDay == p / perDay && (p + 1) % perDay == p % perDay + 1
    ensures p % perDay + 1 == perDay ==> (p + 1) / perDay == p / perDay + 1 && (p + 1) % perDay == 0
  {
    if p % perDay + 1 < perDay {
      DivUnique(p + 1, perDay, p / perDay, p % perDay + 1);
    } else {
      DivUnique(p + 1, perDay, p / perDay + 1, 0);
    }
  }

  /** The place of a slot. */
  function PlaceOf(i: nat, k: nat, perDay: int): (p: nat)
    requires perDay >= 1 && k < perDay
    ensures p / perDay == i && p % perDay == k
  {
    DivUnique(i * perDay + k, perDay, i, k);
    if i > 0 then MulStep(0, i, perDay); i * perDay + k else k
  }

  /** Every calendar: the spacing is kept exactly when each window keeps it and so does each turn. */
  lemma CalendarSpacedIff(windows: seq<Window>, perDay: int, spacing: nat)
    requires Ordered(windows) && perDay >= 1
    ensures CalendarSpaced(windows, perDay, spacing) <==>
              && (forall w | w in windows :: SlotStart(perDay - 1, spacing as real) <= MaxR(0.0, w.Length() - 1.0))
              && forall i: nat | i + 1 < |windows| :: TurnGap(windows, i, perDay, spacing) >= spacing as real
  {
    hide DueInWindow, SlotStart, TurnGap;
    forall w | w in windows
      ensures WindowSpaced(w, perDay, spacing) <==>
                SlotStart(perDay - 1, spacing as real) <= MaxR(0.0, w.Length() - 1.0)
    {
      WindowSpacedIff(w, perDay, spacing);
    }
    if CalendarSpaced(windows, perDay, spacing) {
      forall w | w in windows ensures WindowSpaced(w, perDay, spacing) {
        var i: nat :| i < |windows| && windows[i] == w;
        SpacedCalendarWindow(windows, i, perDay, spacing);
      }
      forall i: nat | i + 1 < |windows| ensures TurnGap(windows, i, perDay, spacing) >= spacing as real {
        SpacedCalendarTurn(windows, i, perDay, spacing);
      }
    }
    if (forall w | w in windows :: WindowSpaced(w, perDay, spacing))
       && forall i: nat | i + 1 < |windows| :: TurnGap(windows, i, perDay, spacing) >= spacing as real {
      forall p: nat | p / perDay < |windows| && (p + 1) / perDay < |windows|
        ensures Gap(windows, p, 1, perDay, spacing) >= spacing as real
      {
        NextPlaceApart(windows, p, perDay, spacing);
      }
      SpacedIfNeighboursApart(windows, perDay, spacing);
    }
  }

  lemma SpacedCalendarWindow(windows: seq<Window>, i: nat, perDay: int, spacing: nat)
    requires perDay >= 1 && i < |windows| && CalendarSpaced(windows, perDay, spacing)
    ensures WindowSpaced(windows[i], perDay, spacing)
  {
    hide DueInWindow;
    forall k: nat, k': nat, f: Fraction, f': Fraction | k < k' < perDay
      ensures DueInWindow(windows[i], k', perDay, spacing, f') - DueInWindow(windows[i], k, perDay, spacing, f)
              >= spacing as real
    {
      var p, q := PlaceOf(i, k, perDay), PlaceOf(i, k', perDay);
      assert Due(windows, q, perDay, spacing, f') - Due(windows, p, perDay, spacing, f) >= spacing as real;
    }
  }

  lemma SpacedCalendarTurn(windows: seq<Window>, i: nat, perDay: int, spacing: nat)
    requires perDay >= 1 && i + 1 < |windows| && CalendarSpaced(windows, perDay, spacing)
    ensures TurnGap(windows, i, perDay, spacing) >= spacing as real
  {
    hide DueInWindow;
    var p := PlaceOf(i, perDay - 1, perDay);
    NextPlace(p, perDay);
    assert Due(windows, p + 1, perDay, spacing, 0.0) - Due(windows, p, perDay, spacing, 1.0) >= spacing as real;
  }

  lemma NextPlaceApart(windows: seq<Window>, p: nat, perDay: int, spacing: nat)
    requires perDay >= 1 && p / perDay < |windows| && (p + 1) / perDay < |windows|
    requires forall w | w in windows :: WindowSpaced(w, perDay, spacing)
    requires forall i: nat | i + 1 < |windows| :: TurnGap(windows, i, perDay, spacing) >= spacing as real
    ensures Gap(windows, p, 1, perDay, spacing) >= spacing as real
  {
    hide DueInWindow;
    NextPlace(p, perDay);
    assert windows[p / perDay] in windows;
    if p % perDay + 1 < perDay {
      assert DueInWindow(windows[p / perDay], p % perDay + 1, perDay, spacing, 0.0)
             - DueInWindow(windows[p / perDay], p % perDay, perDay, spacing, 1.0) >= spacing as real;
    } else {
      assert TurnGap(windows, p / perDay, perDay, spacing) >= spacing as real;
    }
  }

  /**
   In closed form, for windows that last a second: each has room for the slots counted at the spacing, and
   neighbouring starts are a day's messages at the spacing apart.
   */
  lemma LastingWindowsSpacedIff(windows: seq<Window>, perDay: int, spacing: nat)
    requires Ordered(windows) && perDay >= 1 && forall w | w in windows :: w.Length() >= 1.0
    ensures CalendarSpaced(windows, perDay, spacing) <==>
              && (forall w | w in windows :: SlotStart(perDay - 1, spacing as real) <= w.Length() - 1.0)
              && forall i: nat | i + 1 < |windows| :: StartGap(windows, i) >= SlotStart(perDay, spacing as real)
  {
    hide TurnGap, CalendarSpaced, SlotStart;
    CalendarSpacedIff(windows, perDay, spacing);
    if forall w | w in windows :: SlotStart(perDay - 1, spacing as real) <= w.Length() - 1.0 {
      forall i: nat | i + 1 < |windows|
        ensures TurnGap(windows, i, perDay, spacing) >= spacing as real
                <==> StartGap(windows, i) >= SlotStart(perDay, spacing as real)
      {
        assert windows[i] in windows && windows[i + 1] in windows;
        TurnOfLasting(windows, i, perDay, spacing);
      }
    }
  }

  lemma TurnOfLasting(windows: seq<Window>, i: nat, perDay: int, spacing: nat)
    requires Ordered(windows) && perDay >= 1 && i + 1 < |windows|
    requires windows[i].Length() >= 1.0 && windows[i + 1].Length() >= 1.0
    requires SlotStart(perDay - 1, spacing as real) <= windows[i].Length() - 1.0
    ensures TurnGap(windows, i, perDay, spacing) >= spacing as real
            <==> StartGap(windows, i) >= SlotStart(perDay, spacing as real)
  {
    hide DueInWindow;
    var w, w' := windows[i], windows[i + 1];
    assert DueInWindow(w', 0, perDay, spacing, 0.0) == w'.start by { FirstSlotOpens(w', perDay, spacing); }
    assert SlotStart(perDay, spacing as real) == SlotStart(perDay - 1, spacing as real) + spacing as real;
    if Fits(w, perDay, spacing) {
      if spacing >= 1 {
        DueWhenItFits(w, perDay - 1, perDay, spacing, 1.0);
      } else {
        DueStaysInWindow(w, perDay - 1, perDay, spacing, 1.0);
      }
    } else {
      TightWindowDue(w, perDay - 1, perDay, spacing, 1.0);
    }
  }

  lemma FirstSlotOpens(w: Window, perDay: int, spacing: nat)
    requires w.Length() >= 1.0 && perDay >= 1
    ensures DueInWindow(w, 0, perDay, spacing, 0.0) == w.start
  {
    hide DueInWindow;
    var s, x := EarliestParts(w, 0, perDay, spacing);
  }

  // ---- The rolling cap ---------------------------------------------------------------------------

  /** From the latest time of a slot to the earliest time of a slot in another window. */
  function SlotGap(w: Window, k: nat, w': Window, k': nat, perDay: int, spacing: nat): real
    requires perDay >= 1
  {
    DueInWindow(w', k', perDay, spacing, 0.0) - DueInWindow(w, k, perDay, spacing, 1.0)
  }

  /** The gap between a slot of window `i` and the same slot of the next window. */
  function SameSlotGap(windows: seq<Window>, i: nat, k: nat, perDay: int, spacing: nat): real
    requires perDay >= 1 && i + 1 < |windows|
  {
    SlotGap(windows[i], k, windows[i + 1], k, perDay, spacing)
  }

  /** Each slot is that long before the same slot of the next window. */
  ghost predicate SameSlotsApart(windows: seq<Window>, perDay: int, spacing: nat, length: real)
    requires perDay >= 1
  {
    forall i: nat, k: nat | i + 1 < |windows| && k < perDay :: SameSlotGap(windows, i, k, perDay, spacing) >= length
  }

  lemma GapOfSlots(windows: seq<Window>, i: nat, k: nat, perDay: int, spacing: nat)
    requires perDay >= 1 && k < perDay && i + 1 < |windows|
    ensures var p := i * perDay + k;
            && p >= 0 && p / perDay == i && (p + perDay) / perDay == i + 1
            && Gap(windows, p, perDay, perDay, spacing) == SameSlotGap(windows, i, k, perDay, spacing)
  {
    hide DueInWindow;
    if i > 0 { MulStep(0, i, perDay); }
    DivUnique(i * perDay + k, perDay, i, k);
    DivModShift(i * perDay + k, perDay);
  }

  /**
   The rolling cap, exactly: no interval of a length holds more than the daily number of a mailbox's messages
   if and only if each slot, at its latest, is that long before the same slot of the next window, at its earliest.
   */
  lemma RollingCapIff(windows: seq<Window>, perDay: int, spacing: nat, length: real)
    requires Ordered(windows) && perDay >= 1 && length > 0.0
    ensures HoldsAtMost(windows, perDay, spacing, length, perDay) <==> SameSlotsApart(windows, perDay, spacing, length)
  {
    hide DueInWindow, HoldsAtMost, Gap, SameSlotGap;
    HoldsAtMostIff(windows, perDay, spacing, length, perDay);
    if PlacesApart(windows, perDay, spacing, length, perDay) {
      forall i: nat, k: nat | i + 1 < |windows| && k < perDay
        ensures SameSlotGap(windows, i, k, perDay, spacing) >= length
      {
        GapOfSlots(windows, i, k, perDay, spacing);
      }
    }
    if SameSlotsApart(windows, perDay, spacing, length) {
      forall p: nat | p / perDay < |windows| && (p + perDay) / perDay < |windows|
        ensures Gap(windows, p, perDay, perDay, spacing) >= length
      {
        DivModShift(p, perDay);
        GapOfSlots(windows, p / perDay, p % perDay, perDay, spacing);
        assert p == p / perDay * perDay + p % perDay;
      }
    }
  }

  /** Windows of one length whose starts are at least a day apart. */
  ghost predicate DailyWindows(windows: seq<Window>) {
    forall i, j | 0 <= i < j < |windows| ::
      windows[i].Length() == windows[j].Length() && windows[i].start + SECONDS_PER_DAY as real <= windows[j].start
  }

  /** How far jitter can move a message of this window. */
  function JitterBound(length: real, perDay: int, spacing: nat): real
    requires perDay >= 1
  {
    MaxR(0.0, JitterCap(SlotSeconds(length, perDay, spacing), spacing))
  }

  /** From the start of window `i` to the start of the next one. */
  function StartGap(windows: seq<Window>, i: nat): real
    requires i + 1 < |windows|
  {
    windows[i + 1].start - windows[i].start
  }

  /** How much of its jitter the first slot of a window can use. */
  function FirstSlotSlack(w: Window, perDay: int, spacing: nat): real
    requires perDay >= 1
  {
    MinR(JitterBound(w.Length(), perDay, spacing), w.Length() - 1.0)
  }

  ghost predicate GrowingWindows(windows: seq<Window>) {
    && (forall w | w in windows :: w.Length() >= 1.0)
    && forall i: nat | i + 1 < |windows| :: windows[i].Length() <= windows[i + 1].Length()
  }

  lemma PlacedGap(w: Window, w': Window, x: real, x': real, j: real)
    requires 1.0 <= w.Length() <= w'.Length() && 0.0 <= x <= x' && 0.0 <= j
    ensures Placed(w', x', 0.0) - Placed(w, x, j) >= w'.start - w.start - MinR(j, w.Length() - 1.0)
    ensures x == 0.0 && x' == 0.0 ==>
              Placed(w', x', 0.0) - Placed(w, x, j) == w'.start - w.start - MinR(j, w.Length() - 1.0)
  {
  }

  lemma LongerSlots(length: real, length': real, perDay: int, spacing: nat)
    requires length <= length' && perDay >= 1
    ensures SlotSeconds(length, perDay, spacing) <= SlotSeconds(length', perDay, spacing)
  {
    var p, q, q' := perDay as real, length / perDay as real, length' / perDay as real;
    assert p * q == length && p * q' == length';
    if q' < q { MulLess(q', q, p); }
  }

  /** When the next window is at least as long, its first slot comes closest, by the slack of the first one. */
  lemma FirstSlotComesClosest(w: Window, w': Window, k: nat, perDay: int, spacing: nat)
    requires 1.0 <= w.Length() <= w'.Length() && perDay >= 1
    ensures SlotGap(w, k, w', k, perDay, spacing) >= w'.start - w.start - FirstSlotSlack(w, perDay, spacing)
    ensures SlotGap(w, 0, w', 0, perDay, spacing) == w'.start - w.start - FirstSlotSlack(w, perDay, spacing)
  {
    hide DueInWindow, SlotSeconds, Placed, JitterCap, Scaled;
    LongerSlots(w.Length(), w'.Length(), perDay, spacing);
    var s, x, j := LatestParts(w, k, perDay, spacing);
    var s', x' := EarliestParts(w', k, perDay, spacing);

    PlacedGap(w, w', x, x', j);
    var t, y, i := LatestParts(w, 0, perDay, spacing);
    var t', y' := EarliestParts(w', 0, perDay, spacing);
    PlacedGap(w, w', y, y', i);
  }

  lemma LatestParts(w: Window, k: nat, perDay: int, spacing: nat) returns (s: real, x: real, j: real)
    requires w.start < w.end && perDay >= 1
    ensures s == SlotSeconds(w.Length(), perDay, spacing) && x == SlotStart(k, s) && 0.0 <= x
    ensures j == JitterBound(w.Length(), perDay, spacing) && 0.0 <= j
    ensures DueInWindow(w, k, perDay, spacing, 1.0) == Placed(w, x, j)
  {
    hide DueInWindow, SlotSeconds, Placed, JitterCap;
    s, x, j := SlotParts(w, k, perDay, spacing, 1.0);
    assert Scaled(1.0, JitterCap(s, spacing)) == JitterCap(s, spacing);
  }

  lemma EarliestParts(w: Window, k: nat, perDay: int, spacing: nat) returns (s: real, x: real)
    requires w.start < w.end && perDay >= 1
    ensures s == SlotSeconds(w.Length(), perDay, spacing) && x == SlotStart(k, s) && 0.0 <= x
    ensures DueInWindow(w, k, perDay, spacing, 0.0) == Placed(w, x, 0.0)
  {
    hide DueInWindow, SlotSeconds, Placed, JitterCap;
    var j;
    s, x, j := SlotParts(w, k, perDay, spacing, 0.0);
    assert Scaled(0.0, JitterCap(s, spacing)) == 0.0;
  }

  /**
   In closed form, for calendars whose windows never get shorter: the cap holds if and only if consecutive
   starts are the interval apart plus the slack of the earlier window. Clipped first windows and days of 23
   hours are included.
   */
  lemma GrowingWindowsCapIff(windows: seq<Window>, perDay: int, spacing: nat, length: real)
    requires Ordered(windows) && GrowingWindows(windows) && perDay >= 1 && length > 0.0
    ensures HoldsAtMost(windows, perDay, spacing, length, perDay) <==>
              forall i: nat | i + 1 < |windows| ::
                StartGap(windows, i) >= length + FirstSlotSlack(windows[i], perDay, spacing)
  {
    hide HoldsAtMost, SlotGap, FirstSlotSlack;
    RollingCapIff(windows, perDay, spacing, length);
    forall i: nat, k: nat | i + 1 < |windows| && k < perDay
      ensures SameSlotGap(windows, i, k, perDay, spacing)
              >= StartGap(windows, i) - FirstSlotSlack(windows[i], perDay, spacing)
      ensures SameSlotGap(windows, i, 0, perDay, spacing)
              == StartGap(windows, i) - FirstSlotSlack(windows[i], perDay, spacing)
    {
      FirstSlotComesClosest(windows[i], windows[i + 1], k, perDay, spacing);
    }
    if SameSlotsApart(windows, perDay, spacing, length) {
      forall i: nat | i + 1 < |windows|
        ensures StartGap(windows, i) >= length + FirstSlotSlack(windows[i], perDay, spacing)
      {
        assert SameSlotGap(windows, i, 0, perDay, spacing) >= length;
      }
    }
  }

  /**
   A campaign activated in mid-window: its first window is clipped, the others are daily. The cap holds for
   an interval no longer than a day minus the jitter bound if and only if the first two starts allow it.
   */
  lemma ClippedFirstWindowCapIff(windows: seq<Window>, perDay: int, spacing: nat, length: real)
    requires Ordered(windows) && |windows| >= 2 && DailyWindows(windows[1..]) && perDay >= 1
    requires 1.0 <= windows[0].Length() <= windows[1].Length()
    requires 0.0 < length <= SECONDS_PER_DAY as real - JitterBound(windows[1].Length(), perDay, spacing)
    ensures HoldsAtMost(windows, perDay, spacing, length, perDay) <==>
              StartGap(windows, 0) >= length + FirstSlotSlack(windows[0], perDay, spacing)
  {
    hide HoldsAtMost, JitterBound;
    var rest := windows[1..];
    forall i | 1 <= i < |windows| ensures windows[i].Length() == windows[1].Length() {
      assert rest[i - 1] == windows[i] && rest[0] == windows[1];
    }
    forall i: nat | 1 <= i < |windows| - 1 ensures StartGap(windows, i) >= SECONDS_PER_DAY as real {
      assert rest[i - 1] == windows[i] && rest[i] == windows[i + 1];
    }
    forall w | w in windows ensures w.Length() >= 1.0 {
      var i :| 0 <= i < |windows| && windows[i] == w;
    }
    GrowingWindowsCapIff(windows, perDay, spacing, length);
  }

  /**
   The rolling cap for windows of one length whose starts are at least a day apart: at most `perDay` places
   in any half-open interval no longer than a day minus the jitter bound.
   */
  lemma RollingDayCap(windows: seq<Window>, S: set<nat>, jitter: nat -> Fraction,
                      perDay: int, spacing: nat, from: real, upTo: real)
    requires Ordered(windows) && DailyWindows(windows) && perDay >= 1 && windows != []
    requires upTo - from <= SECONDS_PER_DAY as real - JitterBound(windows[0].Length(), perDay, spacing)
    requires DueDuring(windows, S, jitter, perDay, spacing, from, upTo - from)
    ensures |S| <= perDay
  {
    hide DueInWindow, JitterBound;
    var length := upTo - from;
    if length > 0.0 {
      forall i: nat, k: nat | i + 1 < |windows| && k < perDay
        ensures SameSlotGap(windows, i, k, perDay, spacing) >= length
      {
        SlotShift(windows[i], windows[i + 1], k, perDay, spacing, 1.0, 0.0);
        assert windows[i].Length() == windows[0].Length();
      }
      RollingCapIff(windows, perDay, spacing, length);
    } else {
      assert forall p :: p !in S;
    }
  }

  /** A day's worth of places later, the time is a day later up to the jitter. */
  lemma DayLater(windows: seq<Window>, p: nat, perDay: int, spacing: nat, f: Fraction, f': Fraction)
    requires Ordered(windows) && DailyWindows(windows) && perDay >= 1
    requires (p + perDay) / perDay < |windows|
    ensures p / perDay < |windows|
    ensures Due(windows, p + perDay, perDay, spacing, f') - Due(windows, p, perDay, spacing, f)
            >= SECONDS_PER_DAY as real - JitterBound(windows[p / perDay].Length(), perDay, spacing)
  {
    hide DueInWindow, JitterBound;
    DivModShift(p, perDay);
    var i := p / perDay;
    assert windows[i].Length() == windows[i + 1].Length();
    SlotShift(windows[i], windows[i + 1], p % perDay, perDay, spacing, f, f');
  }

  /** The same slot of two windows of one length. */
  lemma SlotShift(w: Window, w': Window, k: nat, perDay: int, spacing: nat, f: Fraction, f': Fraction)
    requires w.start < w.end && w'.start < w'.end && w.Length() == w'.Length() && perDay >= 1
    ensures DueInWindow(w', k, perDay, spacing, f') - DueInWindow(w, k, perDay, spacing, f)
            >= w'.start - w.start - JitterBound(w.Length(), perDay, spacing)
  {
    hide DueInWindow, Placed, JitterSeconds, SlotSeconds, JitterCap, SlotStart;
    var s, x, j := SlotParts(w, k, perDay, spacing, f);
    var s', x', j' := SlotParts(w', k, perDay, spacing, f');
    PlacedShift(w, w', x, j, j', JitterCap(s, spacing));
  }

  lemma PlacedShift(w: Window, w': Window, x: real, j: real, j': real, cap: real)
    requires w.start < w.end && w.Length() == w'.Length() && 0.0 <= x && 0.0 <= j <= cap && 0.0 <= j'
    ensures Placed(w', x, j') - Placed(w, x, j) >= w'.start - w.start - cap
  {
  }

  // ---- A whole day ----------------------------------------------------------------------------------

  /** Which window holds the place a day's worth and one further on. */
  function NextSlotWindow(i: nat, k: nat, perDay: int): nat {
    if k + 1 < perDay then i + 1 else i + 2
  }

  /**
   The gap between a slot and the next slot of the next window; after the last slot, the first of the window
   after.
   */
  function NextSlotGap(windows: seq<Window>, i: nat, k: nat, perDay: int, spacing: nat): real
    requires perDay >= 1 && NextSlotWindow(i, k, perDay) < |windows|
  {
    SlotGap(windows[i], k, windows[NextSlotWindow(i, k, perDay)], if k + 1 < perDay then k + 1 else 0, perDay, spacing)
  }

  ghost predicate NextSlotsApart(windows: seq<Window>, perDay: int, spacing: nat, length: real)
    requires perDay >= 1
  {
    forall i: nat, k: nat | k < perDay && NextSlotWindow(i, k, perDay) < |windows| ::
      NextSlotGap(windows, i, k, perDay, spacing) >= length
  }

  lemma GapToNextSlot(windows: seq<Window>, i: nat, k: nat, perDay: int, spacing: nat)
    requires perDay >= 1 && k < perDay && NextSlotWindow(i, k, perDay) < |windows|
    ensures var p := i * perDay + k;
            && p >= 0 && p / perDay == i && (p + (perDay + 1)) / perDay == NextSlotWindow(i, k, perDay)
            && Gap(windows, p, perDay + 1, perDay, spacing) == NextSlotGap(windows, i, k, perDay, spacing)
  {
    hide DueInWindow;
    if i > 0 { MulStep(0, i, perDay); }
    var p := i * perDay + k;
    DivUnique(p, perDay, i, k);
    assert (i + 1) * perDay == i * perDay + perDay && (i + 2) * perDay == i * perDay + perDay + perDay;
    if k + 1 < perDay {
      DivUnique(p + (perDay + 1), perDay, i + 1, k + 1);
    } else {
      DivUnique(p + (perDay + 1), perDay, i + 2, 0);
    }
  }

  /** Where the place a day's worth and one further on falls. */
  lemma WindowOfNextSlot(p: nat, perDay: int)
    requires perDay >= 1
    ensures p == p / perDay * perDay + p % perDay
    ensures (p + (perDay + 1)) / perDay == NextSlotWindow(p / perDay, p % perDay, perDay)
  {
    var i, k := p / perDay, p % perDay;
    assert (i + 1) * perDay == i * perDay + perDay && (i + 2) * perDay == i * perDay + perDay + perDay;
    if k + 1 < perDay {
      DivUnique(p + (perDay + 1), perDay, i + 1, k + 1);
    } else {
      DivUnique(p + (perDay + 1), perDay, i + 2, 0);
    }
  }

  /** Exactly when an interval holds at most one message more than the daily number, for every calendar. */
  lemma OneMoreIff(windows: seq<Window>, perDay: int, spacing: nat, length: real)
    requires Ordered(windows) && perDay >= 1 && length > 0.0
    ensures HoldsAtMost(windows, perDay, spacing, length, perDay + 1)
            <==> NextSlotsApart(windows, perDay, spacing, length)
  {
    hide DueInWindow, HoldsAtMost, Gap, NextSlotGap, NextSlotWindow;
    HoldsAtMostIff(windows, perDay, spacing, length, perDay + 1);
    if PlacesApart(windows, perDay, spacing, length, perDay + 1) {
      forall i: nat, k: nat | k < perDay && NextSlotWindow(i, k, perDay) < |windows|
        ensures NextSlotGap(windows, i, k, perDay, spacing) >= length
      {
        GapToNextSlot(windows, i, k, perDay, spacing);
        NextSlotIsLater(i, k, perDay);
      }
    }
    if NextSlotsApart(windows, perDay, spacing, length) {
      forall p: nat | p / perDay < |windows| && (p + (perDay + 1)) / perDay < |windows|
        ensures Gap(windows, p, perDay + 1, perDay, spacing) >= length
      {
        WindowOfNextSlot(p, perDay);
        GapToNextSlot(windows, p / perDay, p % perDay, perDay, spacing);
      }
    }
  }

  lemma NextSlotIsLater(i: nat, k: nat, perDay: int)
    ensures i < NextSlotWindow(i, k, perDay)
  {
  }

  /** One place more than a day's worth later, the time is a whole day later: the extra slot outweighs the jitter. */
  lemma DayAndOneLater(windows: seq<Window>, p: nat, perDay: int, spacing: nat, f: Fraction, f': Fraction)
    requires Ordered(windows) && DailyWindows(windows) && perDay >= 1
    requires (p + perDay + 1) / perDay < |windows|
    ensures p / perDay < |windows|
    ensures Due(windows, p + perDay + 1, perDay, spacing, f') - Due(windows, p, perDay, spacing, f)
            >= SECONDS_PER_DAY as real
  {
    hide DueInWindow;
    var i, k := p / perDay, p % perDay;
    DivModShift(p, perDay);
    if k + 1 < perDay {
      DivUnique(p + perDay + 1, perDay, i + 1, k + 1);
      NextSlotShift(windows[i], windows[i + 1], k, perDay, spacing, f, f');
    } else {
      DivUnique(p + perDay + 1, perDay, i + 2, 0);
      var w := windows[i + 2];
      DueStaysInWindow(windows[i], k, perDay, spacing, f);
      if w.Length() < 1.0 {
        ShortWindowDue(w, 0, perDay, spacing, f');
      } else {
        DueStaysInWindow(w, 0, perDay, spacing, f');
      }
      assert windows[i + 1].start + SECONDS_PER_DAY as real <= w.start;
    }
  }

  /** The next slot, in the window of another day. */
  lemma NextSlotShift(w: Window, w': Window, k: nat, perDay: int, spacing: nat, f: Fraction, f': Fraction)
    requires w.start < w.end && w'.start < w'.end && w.Length() == w'.Length() && perDay >= 1
    ensures DueInWindow(w', k + 1, perDay, spacing, f') - DueInWindow(w, k, perDay, spacing, f)
            >= w'.start - w.start
  {
    SlotsInOrder(w, k, k + 1, perDay, spacing, f, f');
  }

  /** With daily windows of one length any half-open day of 86,400 seconds holds at most one message more. */
  lemma AnyDayHoldsOneMore(windows: seq<Window>, perDay: int, spacing: nat)
    requires Ordered(windows) && DailyWindows(windows) && perDay >= 1
    ensures HoldsAtMost(windows, perDay, spacing, SECONDS_PER_DAY as real, perDay + 1)
  {
    hide HoldsAtMost, Due;
    forall p: nat | p / perDay < |windows| && (p + (perDay + 1)) / perDay < |windows|
      ensures Gap(windows, p, perDay + 1, perDay, spacing) >= SECONDS_PER_DAY as real
    {
      DayAndOneLater(windows, p, perDay, spacing, 1.0, 0.0);
    }
    HoldsAtMostIff(windows, perDay, spacing, SECONDS_PER_DAY as real, perDay + 1);
  }

  /**
   Any calendar, clipped or not: an interval that never reaches from one window into the next but one holds
   at most twice the daily number.
   */
  lemma AtMostTwice(windows: seq<Window>, perDay: int, spacing: nat, length: real)
    requires Ordered(windows) && (forall w | w in windows :: w.Length() >= 1.0) && perDay >= 1 && length > 0.0
    requires forall i: nat | i + 2 < |windows| :: windows[i + 2].start - (windows[i].end - 1.0) >= length
    ensures HoldsAtMost(windows, perDay, spacing, length, 2 * perDay)
  {
    hide HoldsAtMost, DueInWindow;
    forall p: nat | p / perDay < |windows| && (p + 2 * perDay) / perDay < |windows|
      ensures Gap(windows, p, 2 * perDay, perDay, spacing) >= length
    {
      var i := p / perDay;
      DivModShift(p, perDay);
      DivModShift(p + perDay, perDay);
      assert p + 2 * perDay == p + perDay + perDay;
      assert windows[i] in windows && windows[i + 2] in windows;
      DueStaysInWindow(windows[i], p % perDay, perDay, spacing, 1.0);
      DueStaysInWindow(windows[i + 2], p % perDay, perDay, spacing, 0.0);
    }
    HoldsAtMostIff(windows, perDay, spacing, length, 2 * perDay);
  }

  /** A campaign that starts ten seconds before its first window closes: four messages within a day, at two a day. */
  lemma ClippedFirstWindowBreaksRollingDay()
    ensures var windows := [Window(28_790.0, 28_800.0), Window(86_400.0, 115_200.0)];
            && Ordered(windows) && !HoldsAtMost(windows, 2, 1, SECONDS_PER_DAY as real - JITTER_MAX_SECONDS, 2)
            && PlannedDueAt(windows, 0, 2, 1, 0.0) == Success(28_790.0)
            && PlannedDueAt(windows, 3, 2, 1, 0.0) == Success(100_800.0)
  {
    hide DueInWindow, HoldsAtMost;
    var first, next := Window(28_790.0, 28_800.0), Window(86_400.0, 115_200.0);
    assert SlotSeconds(first.Length(), 2, 1) == 5.0 && SlotSeconds(next.Length(), 2, 1) == 14_400.0;
    DueWithoutJitter(first, 0, 2, 1);
    DueWithoutJitter(next, 1, 2, 1);
    ClippedFirstWindowCapIff([first, next], 2, 1, SECONDS_PER_DAY as real - JITTER_MAX_SECONDS);
  }

  lemma DueWithoutJitter(w: Window, slot: nat, perDay: int, spacing: nat)
    requires perDay >= 1
    ensures DueInWindow(w, slot, perDay, spacing, 0.0)
            == Placed(w, SlotStart(slot, SlotSeconds(w.Length(), perDay, spacing)), 0.0)
  {
  }

  // ---- Helpers ------------------------------------------------------------------------------------

  lemma DivModShift(p: nat, d: int)
    requires d >= 1
    ensures (p + d) / d == p / d + 1 && (p + d) % d == p % d
  {
    DivUnique(p + d, d, p / d + 1, p % d);
  }

  /** Finite sets of places that reach over at most `n` have at most `n` elements. */
  lemma {:induction false} SpanBoundsSize(S: set<nat>, lo: nat, n: nat)
    requires forall p | p in S :: lo <= p < lo + n
    ensures |S| <= n
  {
    if n == 0 {
      assert S == {};
    } else {
      SpanBoundsSize(S - {lo + n - 1}, lo, n - 1);
    }
  }

  lemma {:induction false} LeastElement(S: set<nat>) returns (m: nat)
    requires S != {}
    ensures m in S && forall p | p in S :: m <= p
    decreases |S|
  {
    m :| m in S;
    if exists p :: p in S && p < m {
      var p :| p in S && p < m;
      assert p in S - {m};
      var rest := LeastElement(S - {m});
      assert forall q | q in S :: q == m || q in S - {m};
      m := rest;
    }
  }
}
