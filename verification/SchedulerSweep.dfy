/**
 The scheduler's two round-robin dispatchers (workers/scheduler.py, `_dispatch_progression` and
 `_dispatch_personalization`): an interval gate and a keyset cursor over campaign ids that wraps around.

 Ids are numbers in the order the query sorts by. A visit carries what the run finds: the clock, the
 feature switch, whether the query succeeds, the campaigns eligible at that moment, and how many tasks
 the broker takes before it fails.
 */
module SchedulerSweep {
  import opened Arithmetic
  import opened Wrappers

  datatype Visit = Visit(now: int, enabled: bool, queryOk: bool, eligible: seq<int>, accepted: nat)

  /** `lastRun` None is minus infinity. */
  datatype Sweep = Sweep(lastRun: Option<int>, cursor: Option<int>)

  /** Configuration: seconds between runs, campaigns per run. */
  datatype Pace = Pace(interval: nat, limit: nat)

  const START := Sweep(None, None)

  ghost predicate Ascending(s: seq<int>) {
    forall i, j | 0 <= i < j < |s| :: s[i] < s[j]
  }

  // ---- One run --------------------------------------------------------------------------------

  /** The rows past the cursor. */
  function Beyond(eligible: seq<int>, after: Option<int>): seq<int> {
    if eligible == [] then []
    else if after.Some? && eligible[0] <= after.value then Beyond(eligible[1..], after)
    else eligible
  }

  function Page(eligible: seq<int>, after: Option<int>, limit: nat): seq<int> {
    var rows := Beyond(eligible, after);
    rows[..if limit < |rows| then limit else |rows|]
  }

  function NextCursor(page: seq<int>, limit: nat): Option<int> {
    if |page| >= limit && page != [] then Some(page[|page| - 1]) else None
  }

  predicate PassesGate(s: Sweep, v: Visit, pace: Pace) {
    v.enabled && (s.lastRun.None? || v.now - s.lastRun.value >= pace.interval)
  }

  predicate Queries(s: Sweep, v: Visit, pace: Pace) { PassesGate(s, v, pace) && v.queryOk }

  /** The campaigns a run picks. */
  function Picked(s: Sweep, v: Visit, pace: Pace): seq<int> {
    if Queries(s, v, pace) then Page(v.eligible, s.cursor, pace.limit) else []
  }

  /** The messages that reach the broker: it may fail in the middle of the slice. */
  function SentOf(s: Sweep, v: Visit, pace: Pace): seq<int> {
    var page := Picked(s, v, pace);
    page[..if v.accepted < |page| then v.accepted else |page|]
  }

  function After(s: Sweep, v: Visit, pace: Pace): Sweep {
    if !PassesGate(s, v, pace) then s
    else Sweep(Some(v.now), if v.queryOk then NextCursor(Picked(s, v, pace), pace.limit) else s.cursor)
  }

  // ---- Many runs --------------------------------------------------------------------------------

  function Picks(s: Sweep, visits: seq<Visit>, pace: Pace): seq<int>
    decreases |visits|
  {
    if visits == [] then [] else Picked(s, visits[0], pace) + Picks(After(s, visits[0], pace), visits[1..], pace)
  }

  function Sends(s: Sweep, visits: seq<Visit>, pace: Pace): seq<int>
    decreases |visits|
  {
    if visits == [] then [] else SentOf(s, visits[0], pace) + Sends(After(s, visits[0], pace), visits[1..], pace)
  }

  function QueryCount(s: Sweep, visits: seq<Visit>, pace: Pace): nat
    decreases |visits|
  {
    if visits == [] then 0
    else (if Queries(s, visits[0], pace) then 1 else 0) + QueryCount(After(s, visits[0], pace), visits[1..], pace)
  }

  /** The times of the runs that pass the gate. */
  function PassTimes(s: Sweep, visits: seq<Visit>, pace: Pace): seq<int>
    decreases |visits|
  {
    if visits == [] then []
    else
      (if PassesGate(s, visits[0], pace) then [visits[0].now] else [])
      + PassTimes(After(s, visits[0], pace), visits[1..], pace)
  }

  /** The run reaches the end of the list and sends the cursor back to None. */
  predicate Wraps(s: Sweep, v: Visit, pace: Pace) { Queries(s, v, pace) && After(s, v, pace).cursor.None? }

  /** From `s` on, the last of these runs is the first that wraps: the rest of a cycle, or all of it from None. */
  predicate EndsCycle(s: Sweep, visits: seq<Visit>, pace: Pace)
    decreases |visits|
  {
    && visits != []
    && if |visits| == 1 then Wraps(s, visits[0], pace)
       else !Wraps(s, visits[0], pace) && EndsCycle(After(s, visits[0], pace), visits[1..], pace)
  }

  ghost predicate Sensible(visits: seq<Visit>, pace: Pace) {
    pace.limit >= 1 && forall k | 0 <= k < |visits| :: Ascending(visits[k].eligible)
  }

  ghost predicate EligibleThroughout(visits: seq<Visit>, id: int) {
    forall k | 0 <= k < |visits| :: id in visits[k].eligible
  }

  ghost predicate Past(cursor: Option<int>, id: int) { cursor.Some? ==> id > cursor.value }

  function Occurrences(s: seq<int>, x: int): nat { multiset(s)[x] }

  // ---- Facts of one page ---------------------------------------------------------------------------

  lemma {:induction false} BeyondFacts(eligible: seq<int>, after: Option<int>)
    requires Ascending(eligible)
    ensures Ascending(Beyond(eligible, after))
    ensures forall x :: x in Beyond(eligible, after) <==> x in eligible && Past(after, x)
  {
    if eligible != [] && after.Some? && eligible[0] <= after.value {
      BeyondFacts(eligible[1..], after);
      assert eligible == [eligible[0]] + eligible[1..];
    }
  }

  /** A page is the next ids in order; a full page ends at its cursor, and a short one holds all that is left. */
  lemma PageFacts(eligible: seq<int>, after: Option<int>, limit: nat)
    requires Ascending(eligible) && limit >= 1
    ensures var page := Page(eligible, after, limit);
            && Ascending(page)
            && (forall x | x in page :: x in eligible && Past(after, x))
            && match NextCursor(page, limit)
               case Some(c) => Past(after, c) && forall x | x in eligible && Past(after, x) :: x in page <==> x <= c
               case None => |page| < limit && forall x | x in eligible && Past(after, x) :: x in page
  {
    hide Beyond;
    BeyondFacts(eligible, after);
    var rows, page := Beyond(eligible, after), Page(eligible, after, limit);
    if NextCursor(page, limit).Some? {
      var c := page[limit - 1];
      forall x | x in rows ensures x in page <==> x <= c {
        var k :| 0 <= k < |rows| && rows[k] == x;
        if k < limit { assert page[k] == x; }
      }
    } else {
      assert page == rows;
    }
  }

  lemma {:induction false} AscendingOnce(s: seq<int>, x: int)
    requires Ascending(s)
    ensures Occurrences(s, x) == if x in s then 1 else 0
  {
    if s != [] {
      var init, last := s[..|s| - 1], s[|s| - 1];
      AscendingOnce(init, x);
      assert s == init + [last];
      forall i | 0 <= i < |init| ensures init[i] != last {}
    }
  }

  lemma OccurrencesSum(a: seq<int>, b: seq<int>, x: int)
    ensures Occurrences(a + b, x) == Occurrences(a, x) + Occurrences(b, x)
  {
  }

  // ---- Fairness ---------------------------------------------------------------------------------------

  /**
   Fairness, from any point of a cycle to its end, while campaigns come and go: nobody is picked twice,
   nobody behind the cursor is picked, and whoever stays eligible ahead of it is picked exactly once.
   */
  lemma {:induction false} CycleIsFair(s: Sweep, visits: seq<Visit>, pace: Pace, id: int)
    requires Sensible(visits, pace) && EndsCycle(s, visits, pace)
    ensures Occurrences(Picks(s, visits, pace), id) <= if Past(s.cursor, id) then 1 else 0
    ensures EligibleThroughout(visits, id) && Past(s.cursor, id) ==> Occurrences(Picks(s, visits, pace), id) == 1
    decreases |visits|
  {
    hide Page, NextCursor, Ascending, EndsCycle, Picks;
    SplitFirst(s, visits, pace);
    var v, rest := visits[0], visits[1..];
    var page, s' := Picked(s, v, pace), After(s, v, pace);
    PageFacts(v.eligible, s.cursor, pace.limit);
    AscendingOnce([], id);
    AscendingOnce(page, id);
    OccurrencesSum(page, Picks(s', rest, pace), id);
    if rest != [] {
      assert forall k | 0 <= k < |rest| :: rest[k] == visits[k + 1];
      CycleIsFair(s', rest, pace, id);
    }
  }

  lemma SplitFirst(s: Sweep, visits: seq<Visit>, pace: Pace)
    requires EndsCycle(s, visits, pace)
    ensures visits != []
    ensures Picks(s, visits, pace) == Picked(s, visits[0], pace) + Picks(After(s, visits[0], pace), visits[1..], pace)
    ensures |visits| == 1 <==> Wraps(s, visits[0], pace)
    ensures |visits| > 1 ==> EndsCycle(After(s, visits[0], pace), visits[1..], pace)
    ensures |visits| == 1 ==> Picks(After(s, visits[0], pace), visits[1..], pace) == []
  {
  }

  /** The whole cycle of a scheduler that starts at None: everybody who stays eligible, exactly once. */
  lemma FullCycle(s: Sweep, visits: seq<Visit>, pace: Pace, id: int)
    requires s.cursor.None? && Sensible(visits, pace) && EndsCycle(s, visits, pace)
    ensures Occurrences(Picks(s, visits, pace), id) <= 1
    ensures EligibleThroughout(visits, id) ==> Occurrences(Picks(s, visits, pace), id) == 1
  {
    CycleIsFair(s, visits, pace, id);
  }

  // ---- How long a cycle takes ----------------------------------------------------------------------

  ghost predicate Fixed(visits: seq<Visit>, eligible: seq<int>) {
    forall k | 0 <= k < |visits| :: visits[k].eligible == eligible
  }

  /** The cursor after the first `k` of a list. */
  function CursorAt(eligible: seq<int>, k: nat): Option<int>
    requires k <= |eligible|
  {
    if k == 0 then None else Some(eligible[k - 1])
  }

  lemma {:induction false} BeyondDrops(eligible: seq<int>, k: nat, last: int)
    requires Ascending(eligible) && k <= |eligible|
    requires forall i | 0 <= i < |eligible| :: eligible[i] <= last <==> i < k
    ensures Beyond(eligible, Some(last)) == eligible[k..]
    decreases |eligible|
  {
    if k > 0 {
      assert forall i | 0 <= i < |eligible| - 1 :: eligible[1..][i] == eligible[i + 1];
      BeyondDrops(eligible[1..], k - 1, last);
    }
  }

  lemma PageOfFixed(eligible: seq<int>, k: nat, limit: nat)
    requires Ascending(eligible) && k <= |eligible| && limit >= 1
    ensures Page(eligible, CursorAt(eligible, k), limit)
            == eligible[k..if k + limit < |eligible| then k + limit else |eligible|]
  {
    if k > 0 { BeyondDrops(eligible, k, eligible[k - 1]); }
  }

  /** One run over a fixed list, `k` of it done. */
  lemma VisitFixed(s: Sweep, v: Visit, pace: Pace, k: nat)
    requires pace.limit >= 1 && Ascending(v.eligible) && k <= |v.eligible| && s.cursor == CursorAt(v.eligible, k)
    ensures var n, page, s' := |v.eligible|, Picked(s, v, pace), After(s, v, pace);
            if !Queries(s, v, pace) then page == [] && s'.cursor == s.cursor && !Wraps(s, v, pace)
            else if n - k < pace.limit then page == v.eligible[k..] && Wraps(s, v, pace)
            else
              && page == v.eligible[k..k + pace.limit] && s'.cursor == CursorAt(v.eligible, k + pace.limit)
              && !Wraps(s, v, pace)
  {
    PageOfFixed(v.eligible, k, pace.limit);
  }

  lemma {:induction false} RestOfCycle(s: Sweep, visits: seq<Visit>, pace: Pace, eligible: seq<int>, k: nat)
    requires pace.limit >= 1 && EndsCycle(s, visits, pace) && Fixed(visits, eligible) && Ascending(eligible)
    requires k <= |eligible| && s.cursor == CursorAt(eligible, k)
    ensures QueryCount(s, visits, pace) == (|eligible| - k) / pace.limit + 1
    ensures Picks(s, visits, pace) == eligible[k..]
    decreases |visits|
  {
    hide Picked, After, Queries, Wraps, Ascending, EndsCycle, Picks;
    SplitFirst(s, visits, pace);
    var v, rest := visits[0], visits[1..];
    assert v.eligible == eligible;
    VisitFixed(s, v, pace, k);
    OneMoreDivisor(|eligible| - k, pace.limit);
    if rest != [] {
      assert forall j | 0 <= j < |rest| :: rest[j] == visits[j + 1];
      RestOfCycle(After(s, v, pace), rest, pace, eligible, if Queries(s, v, pace) then k + pace.limit else k);
    }
  }

  /** With a fixed set of N campaigns a cycle takes floor(N / limit) + 1 queries and picks the whole list in order. */
  lemma CycleLength(s: Sweep, visits: seq<Visit>, pace: Pace, eligible: seq<int>)
    requires s.cursor.None? && Sensible(visits, pace) && EndsCycle(s, visits, pace) && Fixed(visits, eligible)
    ensures QueryCount(s, visits, pace) == |eligible| / pace.limit + 1
    ensures Picks(s, visits, pace) == eligible
  {
    assert visits[0].eligible == eligible;
    RestOfCycle(s, visits, pace, eligible, 0);
  }

  // ---- The gate --------------------------------------------------------------------------------------

  /** Times that follow `last` and one another at least `interval` apart. */
  ghost predicate Apart(last: Option<int>, times: seq<int>, interval: nat) {
    && (last.Some? ==> forall t | t in times :: t - last.value >= interval)
    && forall i, j | 0 <= i < j < |times| :: times[j] - times[i] >= interval
  }

  lemma ApartFirst(last: Option<int>, t: int, times: seq<int>, interval: nat)
    requires Apart(Some(t), times, interval) && (last.Some? ==> t - last.value >= interval)
    ensures Apart(last, [t] + times, interval)
  {
    var all := [t] + times;
    forall i, j | 0 <= i < j < |all| ensures all[j] - all[i] >= interval {
      assert all[j] == times[j - 1] && all[j] in times;
      if i > 0 { assert all[i] == times[i - 1]; }
    }
  }

  /**
   Runs that pass the gate, and so any two that query or send, are at least the interval apart; a failed
   query counts as a run. Nothing is assumed of the clock.
   */
  lemma {:induction false} RunsAreApart(s: Sweep, visits: seq<Visit>, pace: Pace)
    ensures Apart(s.lastRun, PassTimes(s, visits, pace), pace.interval)
    decreases |visits|
  {
    if visits != [] {
      var s' := After(s, visits[0], pace);
      RunsAreApart(s', visits[1..], pace);
      if PassesGate(s, visits[0], pace) {
        ApartFirst(s.lastRun, visits[0].now, PassTimes(s', visits[1..], pace), pace.interval);
      } else {
        assert PassTimes(s, visits, pace) == PassTimes(s', visits[1..], pace);
      }
    }
  }

  function AfterAll(s: Sweep, visits: seq<Visit>, pace: Pace): Sweep
    decreases |visits|
  {
    if visits == [] then s else AfterAll(After(s, visits[0], pace), visits[1..], pace)
  }

  lemma {:induction false} OneVisitMore(s: Sweep, visits: seq<Visit>, v: Visit, pace: Pace)
    ensures var t := AfterAll(s, visits, pace);
            && AfterAll(s, visits + [v], pace) == After(t, v, pace)
            && Picks(s, visits + [v], pace) == Picks(s, visits, pace) + Picked(t, v, pace)
            && Sends(s, visits + [v], pace) == Sends(s, visits, pace) + SentOf(t, v, pace)
            && PassTimes(s, visits + [v], pace)
               == PassTimes(s, visits, pace) + if PassesGate(t, v, pace) then [v.now] else []
    decreases |visits|
  {
    hide Picked, SentOf, After, PassesGate;
    if visits == [] {
      assert [] + [v] == [v] && [v][1..] == [];
    } else {
      assert (visits + [v])[0] == visits[0] && (visits + [v])[1..] == visits[1..] + [v];
      OneVisitMore(After(s, visits[0], pace), visits[1..], v, pace);
    }
  }

  /** The mark a scheduler leaves is the time of its last run. */
  lemma {:induction false} MarkIsLastRun(visits: seq<Visit>, pace: Pace)
    ensures var times := PassTimes(START, visits, pace);
            AfterAll(START, visits, pace).lastRun == if times == [] then None else Some(times[|times| - 1])
    decreases |visits|
  {
    if visits != [] {
      var n := |visits| - 1;
      MarkIsLastRun(visits[..n], pace);
      assert visits == visits[..n] + [visits[n]];
      OneVisitMore(START, visits[..n], visits[n], pace);
      hide PassTimes, AfterAll;
    }
  }

  /** The switch is on, and no run has passed yet or the last one was at least the interval ago. */
  ghost predicate IsDue(times: seq<int>, v: Visit, interval: nat) {
    v.enabled && (times == [] || times[|times| - 1] + interval <= v.now)
  }

  /**
   Exactly when one more visit does anything, after any visits: switched off or too early it changes nothing and
   sends nothing. Otherwise it is a run, and sends the next campaigns after the cursor until the broker fails; a
   failed query sends nothing and leaves the cursor.
   */
  lemma RunsIff(visits: seq<Visit>, v: Visit, pace: Pace)
    requires pace.limit >= 1 && Ascending(v.eligible)
    ensures var times, sends := PassTimes(START, visits, pace), Sends(START, visits, pace);
            var cursor := AfterAll(START, visits, pace).cursor;
            var times', sends' := PassTimes(START, visits + [v], pace), Sends(START, visits + [v], pace);
            var cursor' := AfterAll(START, visits + [v], pace).cursor;
            if !IsDue(times, v, pace.interval) then times' == times && sends' == sends && cursor' == cursor
            else
              && times' == times + [v.now]
              && if !v.queryOk then sends' == sends && cursor' == cursor
                 else
                   exists page | SendsUpTo(sends, page, v.accepted, sends') ::
                     Ascending(page) && IsNextPage(v.eligible, cursor, pace.limit, page, cursor')
  {
    hide Page, NextCursor, Beyond, Ascending;
    MarkIsLastRun(visits, pace);
    OneVisitMore(START, visits, v, pace);
    var t := AfterAll(START, visits, pace);
    var page := Page(v.eligible, t.cursor, pace.limit);
    PageFacts(v.eligible, t.cursor, pace.limit);
    PageIsFull(v.eligible, t.cursor, pace.limit);
    hide PassTimes, Sends, AfterAll;
    if PassesGate(t, v, pace) && v.queryOk {
      assert SendsUpTo(Sends(START, visits, pace), page, v.accepted, Sends(START, visits + [v], pace));
      assert IsNextPage(v.eligible, t.cursor, pace.limit, page, After(t, v, pace).cursor);
    }
  }

  lemma PageIsFull(eligible: seq<int>, after: Option<int>, limit: nat)
    requires limit >= 1
    ensures var page := Page(eligible, after, limit);
            if NextCursor(page, limit).Some? then |page| == limit && page[limit - 1] == NextCursor(page, limit).value
            else |page| < limit
  {
  }

  /** The page reaches the broker until it fails. */
  ghost predicate SendsUpTo(sends: seq<int>, page: seq<int>, accepted: nat, sends': seq<int>) {
    if accepted < |page| then sends' == sends + page[..accepted] else sends' == sends + page
  }

  /** The next eligible ids past the cursor: a full page up to its new cursor, or all that is left and no cursor. */
  ghost predicate IsNextPage(eligible: seq<int>, cursor: Option<int>, limit: nat, page: seq<int>,
      cursor': Option<int>) {
    match cursor'
    case Some(c) =>
      && |page| == limit && limit >= 1 && page[limit - 1] == c
      && forall x :: x in page <==> x in eligible && Past(cursor, x) && x <= c
    case None => |page| < limit && forall x :: x in page <==> x in eligible && Past(cursor, x)
  }

  // ---- What a broker failure costs ------------------------------------------------------------------------

  /** The broker fails before it takes this campaign of the run's page. */
  predicate Refused(s: Sweep, v: Visit, pace: Pace, id: int) {
    var page := Picked(s, v, pace);
    exists k :: v.accepted <= k < |page| && page[k] == id
  }

  /** In one of these runs the broker fails before it takes the campaign. */
  predicate RefusedIn(s: Sweep, visits: seq<Visit>, pace: Pace, id: int)
    decreases |visits|
  {
    visits != [] && (Refused(s, visits[0], pace, id) || RefusedIn(After(s, visits[0], pace), visits[1..], pace, id))
  }

  /** One page: what is picked and not sent is what the broker refuses. */
  lemma PageSends(s: Sweep, v: Visit, pace: Pace, id: int)
    requires pace.limit >= 1 && Ascending(v.eligible)
    ensures Occurrences(Picked(s, v, pace), id)
            == Occurrences(SentOf(s, v, pace), id) + if Refused(s, v, pace, id) then 1 else 0
    ensures Refused(s, v, pace, id) ==> id in Picked(s, v, pace)
  {
    hide Page, NextCursor, Ascending;
    if Queries(s, v, pace) { PageFacts(v.eligible, s.cursor, pace.limit); }
    var page := Picked(s, v, pace);
    assert Ascending(page) by { if !Queries(s, v, pace) { NoneAscend(); } }
    FirstAndRest(page, v.accepted, id);
  }

  lemma NoneAscend()
    ensures Ascending([])
  {
  }

  lemma FirstAndRest(page: seq<int>, n: nat, id: int)
    requires Ascending(page)
    ensures var first := page[..if n < |page| then n else |page|];
            Occurrences(page, id)
            == Occurrences(first, id) + if exists k :: n <= k < |page| && page[k] == id then 1 else 0
  {
    if n < |page| {
      var rest := page[n..];
      assert page == page[..n] + rest;
      OccurrencesSum(page[..n], rest, id);
      AscendingOnce(rest, id);
      hide Occurrences, Ascending;
      forall k | n <= k < |page| ensures page[k] == rest[k - n] {}
      assert (exists k :: n <= k < |page| && page[k] == id) <==> id in rest by {
        if id in rest {
          var i :| 0 <= i < |rest| && rest[i] == id;
          assert page[n + i] == id;
        }
      }
    } else {
      assert page[..|page|] == page;
    }
  }

  lemma PickedBehindCursor(s: Sweep, v: Visit, pace: Pace, id: int)
    requires pace.limit >= 1 && Ascending(v.eligible) && id in Picked(s, v, pace) && !Wraps(s, v, pace)
    ensures !Past(After(s, v, pace).cursor, id)
  {
    PageFacts(v.eligible, s.cursor, pace.limit);
  }

  /**
   Where a cycle's picks go: each is sent, but for the one a campaign loses if the broker fails before it. The
   cursor has moved by then, so it is not tried again before the cycle ends, whatever the later runs find.
   */
  lemma {:induction false} PicksAreSentOrRefused(s: Sweep, visits: seq<Visit>, pace: Pace, id: int)
    requires Sensible(visits, pace) && EndsCycle(s, visits, pace)
    ensures Occurrences(Picks(s, visits, pace), id)
            == Occurrences(Sends(s, visits, pace), id) + if RefusedIn(s, visits, pace, id) then 1 else 0
    decreases |visits|
  {
    hide Page, NextCursor, EndsCycle, Picks, Picked, Refused, Ascending;
    SplitFirst(s, visits, pace);
    var v, rest := visits[0], visits[1..];
    var s' := After(s, v, pace);
    PageSends(s, v, pace, id);
    OccurrencesSum(Picked(s, v, pace), Picks(s', rest, pace), id);
    OccurrencesSum(SentOf(s, v, pace), Sends(s', rest, pace), id);
    if rest != [] {
      assert forall k | 0 <= k < |rest| :: rest[k] == visits[k + 1];
      PicksAreSentOrRefused(s', rest, pace, id);
      if Refused(s, v, pace, id) {
        PickedBehindCursor(s, v, pace, id);
        CycleIsFair(s', rest, pace, id);
      }
    }
  }

  /**
   Exactly when a campaign that stays eligible ahead of the cursor is queued once by the end of the cycle: when
   the broker never fails before it on a page that holds it.
   */
  lemma SentOnceIff(s: Sweep, visits: seq<Visit>, pace: Pace, id: int)
    requires Sensible(visits, pace) && EndsCycle(s, visits, pace)
    requires EligibleThroughout(visits, id) && Past(s.cursor, id)
    ensures Occurrences(Sends(s, visits, pace), id) == 1 <==> !RefusedIn(s, visits, pace, id)
  {
    hide *;
    CycleIsFair(s, visits, pace, id);
    PicksAreSentOrRefused(s, visits, pace, id);
  }

  /** Over a full cycle from no cursor: everybody who stays eligible, if and only if the broker never refuses them. */
  lemma FullCycleSentOnceIff(s: Sweep, visits: seq<Visit>, pace: Pace, id: int)
    requires s.cursor.None? && Sensible(visits, pace) && EndsCycle(s, visits, pace) && EligibleThroughout(visits, id)
    ensures Occurrences(Sends(s, visits, pace), id) == 1 <==> !RefusedIn(s, visits, pace, id)
  {
    SentOnceIff(s, visits, pace, id);
  }

  /** A broker that takes every task gets exactly the picks. */
  lemma {:induction false} HealthyBrokerGetsAll(s: Sweep, visits: seq<Visit>, pace: Pace)
    requires forall k | 0 <= k < |visits| :: visits[k].accepted >= pace.limit
    ensures Sends(s, visits, pace) == Picks(s, visits, pace)
    decreases |visits|
  {
    if visits != [] {
      assert forall j | 0 <= j < |visits| - 1 :: visits[1..][j] == visits[j + 1];
      HealthyBrokerGetsAll(After(s, visits[0], pace), visits[1..], pace);
    }
  }

  /** A campaign the broker refuses in any run of a cycle is not queued in that cycle at all. */
  lemma RefusedUntilNextCycle(s: Sweep, visits: seq<Visit>, pace: Pace, id: int)
    requires Sensible(visits, pace) && EndsCycle(s, visits, pace) && RefusedIn(s, visits, pace, id)
    ensures Occurrences(Sends(s, visits, pace), id) == 0
  {
    hide *;
    CycleIsFair(s, visits, pace, id);
    PicksAreSentOrRefused(s, visits, pace, id);
  }

  // ---- The runtime -----------------------------------------------------------------------------------------

  /** Two sweeps side by side, each with its own clock mark and cursor. */
  class SchedulerRuntime {
    var progressionLastRun: Option<int>
    var progressionCursor: Option<int>
    var personalizationLastRun: Option<int>
    var personalizationCursor: Option<int>

    function Progression(): Sweep
      reads this
    {
      Sweep(progressionLastRun, progressionCursor)
    }

    function Personalization(): Sweep
      reads this
    {
      Sweep(personalizationLastRun, personalizationCursor)
    }

    constructor ()
      ensures Progression() == START && Personalization() == START
    {
      progressionLastRun, progressionCursor := None, None;
      personalizationLastRun, personalizationCursor := None, None;
    }

    method DispatchProgression(v: Visit, pace: Pace) returns (sent: seq<int>)
      requires pace.limit >= 1
      modifies this
      ensures Progression() == After(old(Progression()), v, pace) && Personalization() == old(Personalization())
      ensures sent == SentOf(old(Progression()), v, pace)
    {
      if !v.enabled { return []; }
      if progressionLastRun.Some? && v.now - progressionLastRun.value < pace.interval { return []; }
      progressionLastRun := Some(v.now);
      if !v.queryOk { return []; }
      var campaigns := Page(v.eligible, progressionCursor, pace.limit);
      progressionCursor := if |campaigns| >= pace.limit then Some(campaigns[|campaigns| - 1]) else None;
      sent := Send(campaigns, v.accepted);
    }

    method DispatchPersonalization(v: Visit, pace: Pace) returns (sent: seq<int>)
      requires pace.limit >= 1
      modifies this
      ensures Personalization() == After(old(Personalization()), v, pace) && Progression() == old(Progression())
      ensures sent == SentOf(old(Personalization()), v, pace)
    {
      if !v.enabled { return []; }
      if personalizationLastRun.Some? && v.now - personalizationLastRun.value < pace.interval { return []; }
      personalizationLastRun := Some(v.now);
      if !v.queryOk { return []; }
      var campaigns := Page(v.eligible, personalizationCursor, pace.limit);
      personalizationCursor := if |campaigns| >= pace.limit then Some(campaigns[|campaigns| - 1]) else None;
      sent := Send(campaigns, v.accepted);
    }

    /** Sends one task per campaign until the broker stops taking them. */
    static method Send(campaigns: seq<int>, accepted: nat) returns (sent: seq<int>)
      ensures sent == campaigns[..if accepted < |campaigns| then accepted else |campaigns|]
    {
      sent := [];
      while |sent| < |campaigns|
        invariant |sent| <= accepted && |sent| <= |campaigns| && sent == campaigns[..|sent|]
      {
        if |sent| == accepted { return; }
        sent := sent + [campaigns[|sent|]];
      }
    }
  }
}
