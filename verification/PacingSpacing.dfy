/** What the planned times of one mailbox keep: the window, the order, the spacing, the rolling day. */
module PacingSpacing {
  import opened Arithmetic
  import opened Wrappers
  import opened WindowCalendar
  import opened Pacing

  // ---- Arithmetic of one slot ------------------------------------------------------------

  lemma MulMono(a: real, b: real, s: real)
    requires a <= b && 0.0 <= s
    ensures a * s <= b * s
  {
  }

  lemma MulLess(a: real, b: real, p: real)
    requires a < b && 0.0 < p
    ensures p * a < p * b
  {
  }

  /** `k` slots and one more. */
  lemma SlotStep(k: nat, k': nat, s: real)
    requires k < k' && 0.0 <= s
    ensures 0.0 <= SlotStart(k, s) && SlotStart(k, s) + s <= SlotStart(k', s)
  {
    MulMono(k as real + 1.0, k' as real, s);
    MulMono(0.0, k as real, s);
  }

  lemma FractionOfCap(f: Fraction, cap: real)
    requires 0.0 <= cap
    ensures 0.0 <= Scaled(f, cap) <= cap
  {
    MulMono(0.0, f, cap);
    MulMono(f, 1.0, cap);
  }

  lemma JitterBounds(f: Fraction, s: real, spacing: nat)
    requires 0.0 < s && spacing as real <= s
    ensures 0.0 <= JitterSeconds(f, s, spacing) <= JitterCap(s, spacing)
    ensures JitterCap(s, spacing) <= s * JITTER_SLOT_SHARE
    ensures JitterCap(s, spacing) <= JITTER_MAX_SECONDS
    ensures JitterCap(s, spacing) <= s - spacing as real
  {
    var cap := JitterCap(s, spacing);
    assert 0.0 <= cap;
    hide Scaled;
    FractionOfCap(f, cap);
  }

  /**
   The offset is promised to stay below its cap: where there is jitter at all it does exactly if the fraction of
   the hash is below one.
   */
  lemma JitterBelowCapIff(f: Fraction, s: real, spacing: nat)
    requires JitterCap(s, spacing) > 0.0
    ensures JitterSeconds(f, s, spacing) < JitterCap(s, spacing) <==> f < 1.0
  {
    var cap := JitterCap(s, spacing);
    if f < 1.0 { MulLess(f, 1.0, cap); }
  }

  /** A slot is positive, at least the spacing, and fills the window exactly unless the spacing is what widens it. */
  lemma SlotBounds(length: real, perDay: int, spacing: nat)
    requires length > 0.0 && perDay >= 1
    ensures var s := SlotSeconds(length, perDay, spacing);
            0.0 < s && spacing as real <= s
            && (SlotStart(perDay, spacing as real) <= length ==> SlotStart(perDay, s) == length)
            && (length <= SlotStart(perDay, spacing as real) ==> s == spacing as real)
  {
    var p, q := perDay as real, length / perDay as real;
    assert p * q == length;
    if q < spacing as real { MulLess(q, spacing as real, p); }
    if spacing as real < q { MulLess(spacing as real, q, p); }
  }

  /** What every slot's time is made of, with the products named. */
  lemma SlotParts(w: Window, k: nat, perDay: int, spacing: nat, f: Fraction)
    returns (s: real, x: real, j: real)
    requires w.start < w.end && perDay >= 1
    ensures s == SlotSeconds(w.Length(), perDay, spacing) && 0.0 < s && spacing as real <= s
    ensures x == SlotStart(k, s) && 0.0 <= x
    ensures j == JitterSeconds(f, s, spacing) && 0.0 <= j <= JitterCap(s, spacing)
    ensures j <= s && j <= s - spacing as real
    ensures DueInWindow(w, k, perDay, spacing, f) == Placed(w, x, j)
  {
    SlotBounds(w.Length(), perDay, spacing);
    s := SlotSeconds(w.Length(), perDay, spacing);
    JitterBounds(f, s, spacing);
    MulMono(0.0, k as real, s);
    x, j := SlotStart(k, s), JitterSeconds(f, s, spacing);
  }

  /** Two slots of one window: the second starts at least a slot later. */
  lemma TwoSlots(w: Window, k: nat, k': nat, perDay: int, spacing: nat, f: Fraction, f': Fraction)
    returns (s: real, x: real, j: real, x': real, j': real)
    requires w.start < w.end && perDay >= 1 && k < k'
    ensures 0.0 < s && spacing as real <= s && 0.0 <= x && x + s <= x'
    ensures 0.0 <= j <= s - spacing as real && j <= s && 0.0 <= j' <= s - spacing as real
    ensures DueInWindow(w, k, perDay, spacing, f) == Placed(w, x, j)
    ensures DueInWindow(w, k', perDay, spacing, f') == Placed(w, x', j')
  {
    hide *;
    s, x, j := SlotParts(w, k, perDay, spacing, f);
    var s', x'', j'' := SlotParts(w, k', perDay, spacing, f');
    x', j' := x'', j'';
    SlotStep(k, k', s);
  }

  // ---- Inside the window -----------------------------------------------------------------

  /**
   Every time is at least a second before its window closes; it is inside the window exactly when the window
   lasts a second.
   */
  lemma DueStaysInWindow(w: Window, slot: nat, perDay: int, spacing: nat, f: Fraction)
    requires w.start < w.end && perDay >= 1
    ensures DueInWindow(w, slot, perDay, spacing, f) <= w.end - 1.0
    ensures w.start <= DueInWindow(w, slot, perDay, spacing, f) <==> w.Length() >= 1.0
  {
    var s, x, j := SlotParts(w, slot, perDay, spacing, f);
  }

  // ---- Order -----------------------------------------------------------------------------

  lemma SlotsInOrder(w: Window, k: nat, k': nat, perDay: int, spacing: nat, f: Fraction, f': Fraction)
    requires w.start < w.end && perDay >= 1 && k < k'
    ensures DueInWindow(w, k, perDay, spacing, f) <= DueInWindow(w, k', perDay, spacing, f')
  {
    hide *;
    var s, x, j, x', j' := TwoSlots(w, k, k', perDay, spacing, f, f');
    PlacedInOrder(w, x, j, x', j');
  }

  lemma PlacedInOrder(w: Window, x: real, j: real, x': real, j': real)
    requires w.start < w.end && x + j <= x' && 0.0 <= x && 0.0 <= j && 0.0 <= j'
    ensures Placed(w, x, j) <= Placed(w, x', j')
  {
  }

  /** The time of the message at `position`, for a calendar that still has that window. */
  function Due(windows: seq<Window>, position: nat, perDay: int, spacing: nat, f: Fraction): real
    requires perDay >= 1 && position / perDay < |windows|
  {
    DueInWindow(windows[position / perDay], position % perDay, perDay, spacing, f)
  }

  lemma DueIsPlanned(windows: seq<Window>, position: nat, perDay: int, spacing: nat, f: Fraction)
    requires perDay >= 1 && position / perDay < |windows|
    ensures PlannedDueAt(windows, position, perDay, spacing, f)
            == Success(Due(windows, position, perDay, spacing, f))
  {
  }

  lemma PositionOrder(p: nat, q: nat, perDay: int)
    requires perDay >= 1 && p < q
    ensures p / perDay < q / perDay || (p / perDay == q / perDay && p % perDay < q % perDay)
  {
    if p / perDay > q / perDay {
      MulStep(q / perDay, p / perDay, perDay);
    }
  }

  lemma WindowsInOrder(windows: seq<Window>, i: nat, j: nat, k: nat, k': nat,
                       perDay: int, spacing: nat, f: Fraction, f': Fraction)
    requires Ordered(windows) && i < j < |windows| && perDay >= 1
    ensures DueInWindow(windows[i], k, perDay, spacing, f) < DueInWindow(windows[j], k', perDay, spacing, f')
  {
    DueStaysInWindow(windows[i], k, perDay, spacing, f);
    DueStaysInWindow(windows[j], k', perDay, spacing, f');
    if windows[j].Length() < 1.0 {
      ShortWindowDue(windows[j], k', perDay, spacing, f');
    }
  }

  /** In a window shorter than a second every message is due one second before it closes. */
  lemma ShortWindowDue(w: Window, k: nat, perDay: int, spacing: nat, f: Fraction)
    requires w.start < w.end && w.Length() < 1.0 && perDay >= 1
    ensures DueInWindow(w, k, perDay, spacing, f) == w.end - 1.0
  {
    var s, x, j := SlotParts(w, k, perDay, spacing, f);
  }

  /**
   Due times never decrease with the place in the queue, whatever the jitter, as long as the calendar has the
   windows.
   */
  lemma DueMonotone(windows: seq<Window>, p: nat, q: nat, perDay: int, spacing: nat, f: Fraction, f': Fraction)
    requires Ordered(windows) && perDay >= 1 && p < q && q / perDay < |windows|
    ensures p / perDay < |windows|
    ensures Due(windows, p, perDay, spacing, f) <= Due(windows, q, perDay, spacing, f')
  {
    PositionOrder(p, q, perDay);
    if p / perDay < q / perDay {
      WindowsInOrder(windows, p / perDay, q / perDay, p % perDay, q % perDay, perDay, spacing, f, f');
    } else {
      SlotsInOrder(windows[p / perDay], p % perDay, q % perDay, perDay, spacing, f, f');
    }
  }

  // ---- Past the horizon --------------------------------------------------------------------

  /** The time of any place: past the last window, that window is dealt out again from its first slot. */
  function PlannedTime(windows: seq<Window>, position: nat, perDay: int, spacing: nat, f: Fraction): real
    requires windows != [] && perDay >= 1
  {
    DueInWindow(WindowAt(windows, position / perDay), position % perDay, perDay, spacing, f)
  }

  /** The first `n` places keep their order under every jitter. */
  ghost predicate OrderKept(windows: seq<Window>, n: nat, perDay: int, spacing: nat)
    requires windows != [] && perDay >= 1
  {
    forall p: nat, q: nat, f: Fraction, f': Fraction | p < q < n ::
      PlannedTime(windows, p, perDay, spacing, f) <= PlannedTime(windows, q, perDay, spacing, f')
  }

  /**
   All messages of one window are due at the same moment: it lasts a second at most, or holds one slot with no
   jitter.
   */
  ghost predicate OneMoment(w: Window, perDay: int, spacing: nat) {
    w.Length() <= 1.0 || (perDay == 1 && w.Length() <= spacing as real)
  }

  /**
   Exactly when the first `n` places keep their order: when the calendar has a window for each of them,
   or its last window puts all its messages at one moment.
   */
  lemma OrderKeptIff(windows: seq<Window>, n: nat, perDay: int, spacing: nat)
    requires Ordered(windows) && windows != [] && perDay >= 1
    ensures OrderKept(windows, n, perDay, spacing)
            <==> n <= |windows| * perDay || OneMoment(windows[|windows| - 1], perDay, spacing)
  {
    hide DueInWindow, OneMoment;
    var last := windows[|windows| - 1];
    if n <= |windows| * perDay || OneMoment(last, perDay, spacing) {
      forall p: nat, q: nat, f: Fraction, f': Fraction | p < q < n
        ensures PlannedTime(windows, p, perDay, spacing, f) <= PlannedTime(windows, q, perDay, spacing, f')
      {
        if q / perDay < |windows| {
          DueMonotone(windows, p, q, perDay, spacing, f, f');
        } else {
          if n <= |windows| * perDay { InsideHorizon(|windows|, q, perDay); }
          OrderInLastWindow(windows, p, q, perDay, spacing, f, f');
        }
      }
    } else {
      OrderLostPastTheHorizon(windows, perDay, spacing);
    }
  }

  lemma InsideHorizon(count: nat, q: nat, perDay: int)
    requires perDay >= 1 && q < count * perDay
    ensures q / perDay < count
  {
    if q / perDay >= count {
      if q / perDay > count { MulStep(count, q / perDay, perDay); }
    }
  }

  lemma OrderInLastWindow(windows: seq<Window>, p: nat, q: nat, perDay: int, spacing: nat, f: Fraction, f': Fraction)
    requires Ordered(windows) && windows != [] && perDay >= 1 && p < q && q / perDay >= |windows|
    requires OneMoment(windows[|windows| - 1], perDay, spacing)
    ensures PlannedTime(windows, p, perDay, spacing, f) <= PlannedTime(windows, q, perDay, spacing, f')
  {
    hide DueInWindow, OneMoment;
    var last := |windows| - 1;
    if p / perDay < last {
      WindowsInOrder(windows, p / perDay, last, p % perDay, q % perDay, perDay, spacing, f, f');
    } else {
      AllAtOneMoment(windows[last], p % perDay, q % perDay, perDay, spacing, f, f');
    }
  }

  lemma AllAtOneMoment(w: Window, k: nat, k': nat, perDay: int, spacing: nat, f: Fraction, f': Fraction)
    requires w.start < w.end && perDay >= 1 && k < perDay && k' < perDay && OneMoment(w, perDay, spacing)
    ensures DueInWindow(w, k, perDay, spacing, f) == DueInWindow(w, k', perDay, spacing, f')
  {
    hide DueInWindow;
    if w.Length() < 1.0 {
      ShortWindowDue(w, k, perDay, spacing, f);
      ShortWindowDue(w, k', perDay, spacing, f');
    } else if w.Length() == 1.0 {
      DueStaysInWindow(w, k, perDay, spacing, f);
      DueStaysInWindow(w, k', perDay, spacing, f');
    } else {
      SlotBounds(w.Length(), perDay, spacing);
      var s, x, j := SlotParts(w, k, perDay, spacing, f);
      var s', x', j' := SlotParts(w, k', perDay, spacing, f');
      assert SlotStart(perDay, spacing as real) == spacing as real;
    }
  }

  /**
   Past the horizon the order is lost in every other calendar: the first place dealt into the last window
   again can be due before the last place dealt into it the first time.
   */
  lemma OrderLostPastTheHorizon(windows: seq<Window>, perDay: int, spacing: nat)
    requires Ordered(windows) && windows != [] && perDay >= 1
    requires !OneMoment(windows[|windows| - 1], perDay, spacing)
    ensures var q: nat := |windows| * perDay;
            q >= 1 && PlannedTime(windows, q, perDay, spacing, 0.0) < PlannedTime(windows, q - 1, perDay, spacing, 1.0)
  {
    var count := |windows|;
    var q := count * perDay;
    MulStep(0, count, perDay);
    DivUnique(q, perDay, count, 0);
    assert q - 1 == (count - 1) * perDay + (perDay - 1);
    DivUnique(q - 1, perDay, count - 1, perDay - 1);
    LastSlotIsLater(windows[count - 1], perDay, spacing);
  }

  lemma LastSlotIsLater(w: Window, perDay: int, spacing: nat)
    requires w.start < w.end && perDay >= 1 && !OneMoment(w, perDay, spacing)
    ensures DueInWindow(w, 0, perDay, spacing, 0.0) < DueInWindow(w, perDay - 1, perDay, spacing, 1.0)
  {
    hide DueInWindow;
    var s, x, j := SlotParts(w, 0, perDay, spacing, 0.0);
    var s', x', j' := SlotParts(w, perDay - 1, perDay, spacing, 1.0);
    assert x == 0.0 && j == 0.0;
    if perDay >= 2 {
      SlotStep(0, perDay - 1, s);
    } else {
      SlotBounds(w.Length(), perDay, spacing);
      assert w.Length() / perDay as real == w.Length();
      assert Scaled(1.0, JitterCap(s, spacing)) == JitterCap(s, spacing);
    }
  }

  // ---- Spacing ---------------------------------------------------------------------------

  /** The window has room for a day's messages at the spacing. */
  ghost predicate Fits(w: Window, perDay: int, spacing: nat) {
    SlotStart(perDay, spacing as real) <= w.Length()
  }

  /** In a fitting window the slots fill the window exactly. */
  lemma SlotsFillWindow(w: Window, k: nat, perDay: int, spacing: nat)
    requires w.start < w.end && perDay >= 1 && Fits(w, perDay, spacing) && k < perDay
    ensures var s := SlotSeconds(w.Length(), perDay, spacing);
            SlotStart(k, s) + s <= w.Length()
  {
    SlotBounds(w.Length(), perDay, spacing);
    SlotStep(k, perDay, SlotSeconds(w.Length(), perDay, spacing));
  }

  lemma PlacedUnclamped(w: Window, x: real, j: real, room: real)
    requires 1.0 <= room && 0.0 <= x && 0.0 <= j && x + j + room <= w.Length()
    ensures Placed(w, x, j) == w.start + x + j <= w.end - room
  {
  }

  /** With room for the spacing neither clamp ever bites, and every time leaves the spacing before the window closes. */
  lemma DueWhenItFits(w: Window, k: nat, perDay: int, spacing: nat, f: Fraction)
    requires w.start < w.end && perDay >= 1 && spacing >= 1 && Fits(w, perDay, spacing) && k < perDay
    ensures w.start <= DueInWindow(w, k, perDay, spacing, f) <= w.end - spacing as real
  {
    hide *;
    var s, x, j := SlotParts(w, k, perDay, spacing, f);
    SlotsFillWindow(w, k, perDay, spacing);
    PlacedUnclamped(w, x, j, spacing as real);
  }

  /** Two slots of one fitting window. */
  lemma GapWhenItFits(w: Window, k: nat, k': nat, perDay: int, spacing: nat, f: Fraction, f': Fraction)
    requires w.start < w.end && perDay >= 1 && spacing >= 1 && Fits(w, perDay, spacing) && k < k' < perDay
    ensures DueInWindow(w, k', perDay, spacing, f') - DueInWindow(w, k, perDay, spacing, f) >= spacing as real
  {
    hide *;
    var s, x, j := SlotParts(w, k, perDay, spacing, f);
    var s', x', j' := SlotParts(w, k', perDay, spacing, f');
    SlotsFillWindow(w, k, perDay, spacing);
    SlotsFillWindow(w, k', perDay, spacing);
    SlotStep(k, k', s);
    PlacedUnclamped(w, x, j, spacing as real);
    PlacedUnclamped(w, x', j', spacing as real);
  }

  /**
   The promise of the docstring, over any two places in one mailbox's queue: if every window fits a
   day's messages at the spacing, the two are at least the spacing apart, jitter and clamps included.
   */
  lemma SpacingKept(windows: seq<Window>, p: nat, q: nat, perDay: int, spacing: nat, f: Fraction, f': Fraction)
    requires Ordered(windows) && perDay >= 1 && p < q && q / perDay < |windows|
    requires forall w | w in windows :: Fits(w, perDay, spacing)
    ensures p / perDay < |windows|
    ensures Due(windows, q, perDay, spacing, f') - Due(windows, p, perDay, spacing, f) >= spacing as real
  {
    hide DueInWindow, SlotStart;
    DueMonotone(windows, p, q, perDay, spacing, f, f');
    if spacing >= 1 {
      var i, j := p / perDay, q / perDay;
      PositionOrder(p, q, perDay);
      assert windows[i] in windows && windows[j] in windows;
      if i < j {
        DueWhenItFits(windows[i], p % perDay, perDay, spacing, f);
        DueWhenItFits(windows[j], q % perDay, perDay, spacing, f');
      } else {
        GapWhenItFits(windows[i], p % perDay, q % perDay, perDay, spacing, f, f');
      }
    }
  }

  /** All messages of one window are the spacing apart, whatever the jitter. */
  ghost predicate WindowSpaced(w: Window, perDay: int, spacing: nat)
    requires perDay >= 1
  {
    forall k: nat, k': nat, f: Fraction, f': Fraction | k < k' < perDay ::
      DueInWindow(w, k', perDay, spacing, f') - DueInWindow(w, k, perDay, spacing, f) >= spacing as real
  }

  /**
   Exactly when one window keeps the spacing: when the last of its slots, counted at the spacing,
   starts a second before the window closes. Otherwise the overflow piles up at the end. A window shorter than
   a second has room for one message only, or for a spacing of zero.
   */
  lemma WindowSpacedIff(w: Window, perDay: int, spacing: nat)
    requires w.start < w.end && perDay >= 1
    ensures WindowSpaced(w, perDay, spacing) <==>
              SlotStart(perDay - 1, spacing as real) <= MaxR(0.0, w.Length() - 1.0)
  {
    if w.Length() < 1.0 {
      ShortWindowSpacedIff(w, perDay, spacing);
    } else if SlotStart(perDay - 1, spacing as real) <= w.Length() - 1.0 {
      forall k: nat, k': nat, f: Fraction, f': Fraction | k < k' < perDay
        ensures DueInWindow(w, k', perDay, spacing, f') - DueInWindow(w, k, perDay, spacing, f) >= spacing as real
      {
        GapInWindow(w, k, k', perDay, spacing, f, f');
      }
    } else {
      OverflowPilesUp(w, perDay, spacing);
    }
  }

  lemma NoSlotsBefore(k: real, s: real)
    requires k == 0.0 || s == 0.0
    ensures k * s == 0.0
  {
  }

  lemma ShortWindowSpacedIff(w: Window, perDay: int, spacing: nat)
    requires w.start < w.end && w.Length() < 1.0 && perDay >= 1
    ensures WindowSpaced(w, perDay, spacing) <==> SlotStart(perDay - 1, spacing as real) <= 0.0
  {
    hide DueInWindow;
    forall k: nat, f: Fraction ensures DueInWindow(w, k, perDay, spacing, f) == w.end - 1.0 {
      ShortWindowDue(w, k, perDay, spacing, f);
    }
    if perDay >= 2 && spacing >= 1 {
      SlotStep(0, perDay - 1, spacing as real);
      assert DueInWindow(w, 1, perDay, spacing, 0.0) - DueInWindow(w, 0, perDay, spacing, 0.0) < spacing as real;
    } else if perDay == 1 {
      NoSlotsBefore(0.0, spacing as real);
    } else {
      NoSlotsBefore((perDay - 1) as real, 0.0);
    }
  }

  lemma GapInWindow(w: Window, k: nat, k': nat, perDay: int, spacing: nat, f: Fraction, f': Fraction)
    requires w.Length() >= 1.0 && perDay >= 1 && k < k' < perDay
    requires SlotStart(perDay - 1, spacing as real) <= w.Length() - 1.0
    ensures DueInWindow(w, k', perDay, spacing, f') - DueInWindow(w, k, perDay, spacing, f) >= spacing as real
  {
    SlotsInOrder(w, k, k', perDay, spacing, f, f');
    if spacing >= 1 {
      if Fits(w, perDay, spacing) {
        GapWhenItFits(w, k, k', perDay, spacing, f, f');
      } else {
        GapWhenTight(w, k, k', perDay, spacing, f, f');
      }
    }
  }

  lemma GapWhenTight(w: Window, k: nat, k': nat, perDay: int, spacing: nat, f: Fraction, f': Fraction)
    requires w.Length() >= 1.0 && perDay >= 1 && k < k' < perDay && !Fits(w, perDay, spacing)
    requires SlotStart(perDay - 1, spacing as real) <= w.Length() - 1.0
    ensures DueInWindow(w, k', perDay, spacing, f') - DueInWindow(w, k, perDay, spacing, f) >= spacing as real
  {
    hide DueInWindow, SlotStart;
    TightWindowDue(w, k, perDay, spacing, f);
    TightWindowDue(w, k', perDay, spacing, f');
    SlotStep(k, k', spacing as real);
    if k' < perDay - 1 { SlotStep(k', perDay - 1, spacing as real); }
  }

  /** When the spacing widens the slots there is no jitter, and a slot that would start too late is moved to the end. */
  lemma TightWindowDue(w: Window, k: nat, perDay: int, spacing: nat, f: Fraction)
    requires w.Length() >= 1.0 && perDay >= 1 && !Fits(w, perDay, spacing)
    ensures DueInWindow(w, k, perDay, spacing, f)
            == w.start + MinR(SlotStart(k, spacing as real), w.Length() - 1.0)
  {
    SlotBounds(w.Length(), perDay, spacing);
    var s, x, j := SlotParts(w, k, perDay, spacing, f);
  }

  lemma OverflowPilesUp(w: Window, perDay: int, spacing: nat)
    requires w.Length() >= 1.0 && perDay >= 1
    requires SlotStart(perDay - 1, spacing as real) > w.Length() - 1.0
    ensures !WindowSpaced(w, perDay, spacing)
  {
    hide DueInWindow;

    var k := perDay - 2;
    var s := spacing as real;
    assert perDay >= 2 && spacing >= 1;
    assert SlotStart(perDay, s) == SlotStart(perDay - 1, s) + s;
    assert !Fits(w, perDay, spacing);
    TightWindowDue(w, k, perDay, spacing, 0.0);
    TightWindowDue(w, k + 1, perDay, spacing, 0.0);
    assert SlotStart(k + 1, s) == SlotStart(k, s) + s;
    assert DueInWindow(w, k + 1, perDay, spacing, 0.0) - DueInWindow(w, k, perDay, spacing, 0.0) < s;
  }
}
