/**
 Round robin and window capacity: how the mailbox and the place in its queue share out the
 ordinals, and how many first emails a window can receive.
 */
module PacingCaps {
  import opened Arithmetic
  import opened Wrappers
  import opened WindowCalendar
  import opened Pacing
  import opened PacingSpacing

  // ---- The bijection -----------------------------------------------------------------------

  /** The ordinal of the recipient at `position` in the queue of the mailbox with index `m`. */
  function OrdinalOf(m: nat, position: nat, n: nat): int { position * n + m + 1 }

  /** Mailbox index and queue position determine the ordinal, and every pair is some ordinal's. */
  lemma RoundRobinBijection(n: nat, m: nat, position: nat, ordinal: int)
    requires m < n && ordinal >= 1
    ensures OrdinalOf(m, position, n) >= 1
    ensures ordinal == OrdinalOf(m, position, n) <==>
              (ordinal - 1) % n == m && QueuePosition(ordinal, n) == position
  {
    if ordinal == OrdinalOf(m, position, n) {
      DivUnique(ordinal - 1, n, position, m);
    }
    assert position * n >= 0;
  }

  /** Each mailbox is the one the ordinal is assigned to. */
  lemma AssignedMailbox<M>(mailboxes: seq<M>, m: nat, position: nat)
    requires m < |mailboxes|
    ensures AssignMailbox(mailboxes, OrdinalOf(m, position, |mailboxes|)) == Success(mailboxes[m])
  {
    RoundRobinBijection(|mailboxes|, m, position, OrdinalOf(m, position, |mailboxes|));
  }

  // ---- One planner over its mailboxes --------------------------------------------------------

  ghost predicate PlansFor(pl: DuePlanner, boxes: seq<int>) {
    pl.windows != [] && boxes != [] && pl.mailboxCount == |boxes|
  }

  /** What limit rows say of a mailbox: its own entry, or the default of those that have none. */
  function OwnPacing(pl: DuePlanner, box: int): MailboxPacing {
    if box in pl.pacingByMailbox then pl.pacingByMailbox[box] else pl.default
  }

  function BoxIndex(boxes: seq<int>, ordinal: int): (i: nat)
    requires boxes != []
    ensures i < |boxes|
  {
    (ordinal - 1) % |boxes|
  }

  /** The mailbox's share of one window. */
  function Share(pl: DuePlanner, boxes: seq<int>, m: nat): (share: int)
    requires m < |boxes|
    ensures 1 <= share <= Max(1, OwnPacing(pl, boxes[m]).dailyCap)
    ensures pl.campaignDailyLimit.None? ==> share == Max(1, OwnPacing(pl, boxes[m]).dailyCap)
  {
    pl.PerDay(boxes[m])
  }

  /** Index of the window the planner uses; past the horizon that is the last one. */
  function WindowOf(pl: DuePlanner, boxes: seq<int>, ordinal: int): nat
    requires PlansFor(pl, boxes)
  {
    var i := QueuePosition(ordinal, |boxes|) / Share(pl, boxes, BoxIndex(boxes, ordinal));
    if i < |pl.windows| then i else |pl.windows| - 1
  }

  /**
   Mailboxes are planned apart from one another: planners with the same windows, mailbox count, campaign limit and
   hash give a mailbox's messages the same times if they hold the same entry for it, or the same default where
   both have none. A planner that has an entry plans as if that were its default.
   */
  lemma MailboxesAreApart(pl: DuePlanner, pl': DuePlanner, box: int, ordinal: int, id: int)
    requires pl.windows == pl'.windows && pl.mailboxCount == pl'.mailboxCount
    requires pl.campaignDailyLimit == pl'.campaignDailyLimit && pl.hash == pl'.hash
    requires || (box in pl.pacingByMailbox && box in pl'.pacingByMailbox
                 && pl.pacingByMailbox[box] == pl'.pacingByMailbox[box])
             || (box !in pl.pacingByMailbox && box !in pl'.pacingByMailbox && pl.default == pl'.default)
             || (box in pl.pacingByMailbox && box !in pl'.pacingByMailbox && pl.pacingByMailbox[box] == pl'.default)
    ensures pl.DueAt(box, ordinal, id) == pl'.DueAt(box, ordinal, id)
    ensures pl.PerDay(box) == pl'.PerDay(box)
  {
    hide PlannedDueAt;
  }

  /** A mailbox's share by its own cap: all of it without a campaign limit, and otherwise no more than reaches that. */
  lemma ShareOfOwnCap(pl: DuePlanner, boxes: seq<int>, m: nat)
    requires PlansFor(pl, boxes) && m < |boxes|
    ensures var cap := Max(1, OwnPacing(pl, boxes[m]).dailyCap);
            match pl.campaignDailyLimit
            case None => Share(pl, boxes, m) == cap
            case Some(limit) =>
              if limit <= 0 then Share(pl, boxes, m) == cap
              else (Share(pl, boxes, m) - 1) * |boxes| < limit
                   && (Share(pl, boxes, m) == cap || limit <= Share(pl, boxes, m) * |boxes|)
  {
    hide PerMailboxDaily;
    PerMailboxDailyIsLargest(OwnPacing(pl, boxes[m]).dailyCap, pl.campaignDailyLimit, |boxes|);
  }

  /**
   The planner's time for a recipient of its assigned mailbox lies in window `WindowOf`, in its slot by its own
   pacing.
   */
  lemma DueAtInItsWindow(pl: DuePlanner, boxes: seq<int>, ordinal: int, id: int)
    requires PlansFor(pl, boxes)
    requires Ordered(pl.windows)
    ensures var box := boxes[BoxIndex(boxes, ordinal)];
            var w := pl.windows[WindowOf(pl, boxes, ordinal)];
            var due := pl.DueAt(box, ordinal, id);
            var share := Share(pl, boxes, BoxIndex(boxes, ordinal));
            && due == Success(DueInWindow(w, QueuePosition(ordinal, |boxes|) % share, share,
                                          OwnPacing(pl, box).minSpacingSeconds, pl.hash(id)))
            && due.value <= w.end - 1.0
            && (w.Length() >= 1.0 ==> w.start <= due.value)
  {
    var m := BoxIndex(boxes, ordinal);
    var w := pl.windows[WindowOf(pl, boxes, ordinal)];
    var perDay := Share(pl, boxes, m);
    DueStaysInWindow(w, QueuePosition(ordinal, |boxes|) % perDay, perDay,
                     OwnPacing(pl, boxes[m]).minSpacingSeconds, pl.hash(id));
  }

  /** The recipients among `S` whose mailbox has index `m` and whose window is `w`. */
  ghost function OfBox(pl: DuePlanner, boxes: seq<int>, S: set<int>, m: nat, w: nat): set<int>
    requires PlansFor(pl, boxes)
  {
    set o | o in S && BoxIndex(boxes, o) == m && WindowOf(pl, boxes, o) == w
  }

  ghost function OfWindow(pl: DuePlanner, boxes: seq<int>, S: set<int>, w: nat): set<int>
    requires PlansFor(pl, boxes)
  {
    set o | o in S && WindowOf(pl, boxes, o) == w
  }

  ghost predicate Ordinals(S: set<int>) { forall o | o in S :: o >= 1 }

  lemma {:induction false} PositionsBoundSize(T: set<int>, n: nat, m: nat, lo: nat, k: nat)
    requires m < n && Ordinals(T)
    requires forall o | o in T :: (o - 1) % n == m && lo <= QueuePosition(o, n) < lo + k
    ensures |T| <= k
  {
    if k == 0 {
      assert forall o :: o !in T;
    } else {
      var last := OrdinalOf(m, lo + k - 1, n);
      forall o | o in T - {last} ensures QueuePosition(o, n) < lo + k - 1 {
        RoundRobinBijection(n, m, lo + k - 1, o);
      }
      PositionsBoundSize(T - {last}, n, m, lo, k - 1);
    }
  }

  lemma DivBounds(a: nat, d: int)
    requires d >= 1
    ensures a / d * d <= a < a / d * d + d
  {
  }

  /**
   A window before the last never receives more than the mailbox's share of one mailbox's messages, nor more
   than its cap.
   */
  lemma BoxCapPerWindow(pl: DuePlanner, boxes: seq<int>, S: set<int>, m: nat, w: nat)
    requires PlansFor(pl, boxes) && Ordinals(S) && m < |boxes| && w + 1 < |pl.windows|
    ensures |OfBox(pl, boxes, S, m, w)| <= Share(pl, boxes, m) <= Max(1, OwnPacing(pl, boxes[m]).dailyCap)
  {
    var T, d := OfBox(pl, boxes, S, m, w), Share(pl, boxes, m);
    forall o | o in T ensures w * d <= QueuePosition(o, |boxes|) < w * d + d {
      DivBounds(QueuePosition(o, |boxes|), d);
    }
    assert w * d >= 0;
    PositionsBoundSize(T, |boxes|, m, w * d, d);
  }

  /** The ordinals of `k` places of the mailbox with index `m`, from place `lo` on. */
  ghost function PlacesFrom(n: nat, m: nat, lo: nat, k: nat): set<int> {
    if k == 0 then {} else PlacesFrom(n, m, lo, k - 1) + {OrdinalOf(m, lo + k - 1, n)}
  }

  lemma {:induction false} PlacesFromFacts(n: nat, m: nat, lo: nat, k: nat)
    requires m < n
    ensures |PlacesFrom(n, m, lo, k)| == k && Ordinals(PlacesFrom(n, m, lo, k))
    ensures forall o | o in PlacesFrom(n, m, lo, k) :: OnBox(o, m, n) && lo <= QueuePosition(o, n) < lo + k
  {
    hide QueuePosition, OrdinalOf, OnBox;
    if k > 0 {
      PlacesFromFacts(n, m, lo, k - 1);
      PlaceOfOrdinal(n, m, lo + k - 1);
    }
  }

  /** The ordinal is assigned to the mailbox with index `m`. */
  predicate OnBox(ordinal: int, m: nat, n: nat) { n > 0 && (ordinal - 1) % n == m }

  lemma PlaceOfOrdinal(n: nat, m: nat, position: nat)
    requires m < n
    ensures var o := OrdinalOf(m, position, n); o >= 1 && OnBox(o, m, n) && QueuePosition(o, n) == position
  {
    assert position * n >= 0;
    RoundRobinBijection(n, m, position, OrdinalOf(m, position, n));
  }

  /** The last window takes every place from its own first one on, past the horizon too. */
  lemma InLastWindowIff(pl: DuePlanner, boxes: seq<int>, ordinal: int)
    requires PlansFor(pl, boxes)
    ensures WindowOf(pl, boxes, ordinal) == |pl.windows| - 1 <==>
              QueuePosition(ordinal, |boxes|) >= (|pl.windows| - 1) * Share(pl, boxes, BoxIndex(boxes, ordinal))
  {
    hide QueuePosition, Share;
    var q, d, last := QueuePosition(ordinal, |boxes|), Share(pl, boxes, BoxIndex(boxes, ordinal)), |pl.windows| - 1;
    assert d >= 1 by { var share := Share(pl, boxes, BoxIndex(boxes, ordinal)); }
    DivBounds(q, d);
    if q / d < last { MulStep(q / d, last, d); }
    if last < q / d { MulStep(last, q / d, d); }
  }

  /**
   So its cap fails for every planner and every mailbox: there are as many recipients of that mailbox in it as
   one likes.
   */
  lemma LastWindowIsUnbounded(pl: DuePlanner, boxes: seq<int>, m: nat, count: nat) returns (S: set<int>)
    requires PlansFor(pl, boxes) && m < |boxes|
    ensures Ordinals(S) && |S| == count && OfBox(pl, boxes, S, m, |pl.windows| - 1) == S
  {
    hide QueuePosition, WindowOf, Share;
    var share := Share(pl, boxes, m);
    var lo := (|pl.windows| - 1) * share;
    assert lo >= 0;
    S := PlacesFrom(|boxes|, m, lo, count);
    PlacesFromFacts(|boxes|, m, lo, count);
    forall o | o in S ensures BoxIndex(boxes, o) == m && WindowOf(pl, boxes, o) == |pl.windows| - 1 {
      InLastWindowIff(pl, boxes, o);
    }
  }

  /** The shares of the first `j` mailboxes together. */
  function ShareSum(pl: DuePlanner, boxes: seq<int>, j: nat): int
    requires j <= |boxes|
  {
    if j == 0 then 0 else ShareSum(pl, boxes, j - 1) + Share(pl, boxes, j - 1)
  }

  ghost function OfFirstBoxes(pl: DuePlanner, boxes: seq<int>, S: set<int>, j: nat, w: nat): set<int>
    requires PlansFor(pl, boxes)
  {
    set o | o in S && BoxIndex(boxes, o) < j && WindowOf(pl, boxes, o) == w
  }

  lemma {:induction false} FirstBoxesBound(pl: DuePlanner, boxes: seq<int>, S: set<int>, j: nat, w: nat)
    requires PlansFor(pl, boxes) && Ordinals(S) && j <= |boxes| && w + 1 < |pl.windows|
    ensures |OfFirstBoxes(pl, boxes, S, j, w)| <= ShareSum(pl, boxes, j)
  {
    if j == 0 {
      assert OfFirstBoxes(pl, boxes, S, 0, w) == {};
    } else {
      FirstBoxesBound(pl, boxes, S, j - 1, w);
      BoxCapPerWindow(pl, boxes, S, j - 1, w);
      assert OfFirstBoxes(pl, boxes, S, j, w)
          == OfFirstBoxes(pl, boxes, S, j - 1, w) + OfBox(pl, boxes, S, j - 1, w);
    }
  }

  lemma {:induction false} ShareSumUnderLimit(pl: DuePlanner, boxes: seq<int>, j: nat)
    requires pl.mailboxCount == |boxes| && j <= |boxes|
    requires pl.campaignDailyLimit.Some? && pl.campaignDailyLimit.value > 0
    ensures ShareSum(pl, boxes, j) <= j * CeilDiv(pl.campaignDailyLimit.value, pl.Count())
  {
    if j > 0 {
      ShareSumUnderLimit(pl, boxes, j - 1);
      var share := CeilDiv(pl.campaignDailyLimit.value, pl.Count());
      assert share >= 1;
      assert (j - 1) * share + share == j * share;
    }
  }

  lemma CeilDivBounds(a: int, b: int)
    requires b > 0
    ensures a <= b * CeilDiv(a, b) <= a + b - 1
    ensures b * CeilDiv(a, b) <= a <==> a % b == 0
  {
    var q, r := (-a) / b, (-a) % b;
    assert -a == b * q + r;
    assert b * CeilDiv(a, b) == -(b * q);
    if r == 0 {
      DivUnique(a, b, -q, 0);
    } else {
      DivUnique(a, b, -q - 1, b - r);
    }
  }

  /**
   A mailbox's daily number is the largest that keeps both limits, never below one: within the cap, and, with
   a positive campaign limit, no larger than the mailboxes need to reach it together.
   */
  lemma PerMailboxDailyIsLargest(cap: int, limit: Option<int>, count: int)
    ensures var d, n := PerMailboxDaily(cap, limit, count), Max(1, count);
            && 1 <= d <= Max(1, cap)
            && (limit.None? || limit.value <= 0 ==> d == Max(1, cap))
            && (limit.Some? && limit.value > 0 ==>
                  (d - 1) * n < limit.value && (d == Max(1, cap) || limit.value <= d * n))
  {
    hide CeilDiv;
    if limit.Some? && limit.value > 0 {
      var n := Max(1, count);
      var share := CeilDiv(limit.value, n);
      ShareReachesLimit(limit.value, n);
      var d := PerMailboxDaily(cap, limit, count);
      assert d == Max(1, Min(Max(1, cap), share));
      if d < share { MulStep(d, share, n); }
    }
  }

  lemma ShareReachesLimit(limit: int, n: int)
    requires limit > 0 && n >= 1
    ensures var share := CeilDiv(limit, n); share >= 1 && (share - 1) * n < limit <= share * n
  {
    CeilDivBounds(limit, n);
    var share := CeilDiv(limit, n);
    hide CeilDiv;
    assert (share - 1) * n == n * share - n && share * n == n * share;
  }

  /**
   With a positive campaign limit over `n` mailboxes, a window before the last receives at most
   `limit + n - 1` messages, whatever set of recipients was accepted.
   */
  lemma WindowTotalBound(pl: DuePlanner, boxes: seq<int>, S: set<int>, w: nat)
    requires PlansFor(pl, boxes) && Ordinals(S) && w + 1 < |pl.windows|
    requires pl.campaignDailyLimit.Some? && pl.campaignDailyLimit.value > 0
    ensures |OfWindow(pl, boxes, S, w)| <= ShareSum(pl, boxes, |boxes|)
    ensures ShareSum(pl, boxes, |boxes|) <= pl.campaignDailyLimit.value + |boxes| - 1
  {
    assert OfWindow(pl, boxes, S, w) == OfFirstBoxes(pl, boxes, S, |boxes|, w);
    FirstBoxesBound(pl, boxes, S, |boxes|, w);
    ShareSumUnderLimit(pl, boxes, |boxes|);
    CeilDivBounds(pl.campaignDailyLimit.value, |boxes|);
  }

  // ---- When the campaign's own limit is kept ---------------------------------------------------

  /** A full first day: every mailbox among the first `j` has its share. */
  ghost function FullDay(pl: DuePlanner, boxes: seq<int>, j: nat): set<int>
    requires j <= |boxes|
  {
    if j == 0 then {} else FullDay(pl, boxes, j - 1) + FirstDayOf(pl, boxes, j - 1)
  }

  /** One mailbox's part of a full first day. */
  ghost function FirstDayOf(pl: DuePlanner, boxes: seq<int>, m: nat): set<int>
    requires m < |boxes|
  {
    PlacesFrom(|boxes|, m, 0, Share(pl, boxes, m))
  }

  lemma FirstDayFacts(pl: DuePlanner, boxes: seq<int>, m: nat)
    requires PlansFor(pl, boxes) && m < |boxes|
    ensures |FirstDayOf(pl, boxes, m)| == Share(pl, boxes, m) && Ordinals(FirstDayOf(pl, boxes, m))
    ensures forall o | o in FirstDayOf(pl, boxes, m) :: BoxIndex(boxes, o) == m && WindowOf(pl, boxes, o) == 0
  {
    hide QueuePosition, Share, WindowOf;
    var k := Share(pl, boxes, m);
    PlacesFromFacts(|boxes|, m, 0, k);
    forall o | o in PlacesFrom(|boxes|, m, 0, k) ensures WindowOf(pl, boxes, o) == 0 {
      EarlyPlaceInWindow(pl, boxes, o);
    }
  }

  lemma EarlyPlaceInWindow(pl: DuePlanner, boxes: seq<int>, ordinal: int)
    requires PlansFor(pl, boxes) && QueuePosition(ordinal, |boxes|) < Share(pl, boxes, BoxIndex(boxes, ordinal))
    ensures WindowOf(pl, boxes, ordinal) == 0
  {
    hide QueuePosition, Share, BoxIndex;
    var k := Share(pl, boxes, BoxIndex(boxes, ordinal));
    DivUnique(QueuePosition(ordinal, |boxes|), k, 0, QueuePosition(ordinal, |boxes|));
  }

  lemma {:induction false} FullDayFacts(pl: DuePlanner, boxes: seq<int>, j: nat)
    requires PlansFor(pl, boxes) && j <= |boxes|
    ensures Ordinals(FullDay(pl, boxes, j)) && |FullDay(pl, boxes, j)| == ShareSum(pl, boxes, j)
    ensures forall o | o in FullDay(pl, boxes, j) :: BoxIndex(boxes, o) < j && WindowOf(pl, boxes, o) == 0
  {
    hide FirstDayOf, BoxIndex, Share, WindowOf;
    if j > 0 {
      FullDayFacts(pl, boxes, j - 1);
      FirstDayFacts(pl, boxes, j - 1);
      var earlier, own := FullDay(pl, boxes, j - 1), FirstDayOf(pl, boxes, j - 1);
      forall o | o in earlier ensures o !in own {
        assert BoxIndex(boxes, o) < j - 1;
      }
    }
  }

  /** The campaign's daily limit holds in every window before the last, for every set of recipients. */
  ghost predicate KeepsDailyLimit(pl: DuePlanner, boxes: seq<int>, limit: int)
    requires PlansFor(pl, boxes)
  {
    forall S: set<int>, w: nat | Ordinals(S) && w + 1 < |pl.windows| :: |OfWindow(pl, boxes, S, w)| <= limit
  }

  /** Exactly when the limit is kept: when the mailboxes' shares do not add up to more. */
  lemma KeepsDailyLimitIff(pl: DuePlanner, boxes: seq<int>, limit: int)
    requires PlansFor(pl, boxes) && |pl.windows| >= 2
    ensures KeepsDailyLimit(pl, boxes, limit) <==> ShareSum(pl, boxes, |boxes|) <= limit
  {
    var n := |boxes|;
    if ShareSum(pl, boxes, n) <= limit {
      forall S: set<int>, w: nat | Ordinals(S) && w + 1 < |pl.windows|
        ensures |OfWindow(pl, boxes, S, w)| <= limit
      {
        FirstBoxesBound(pl, boxes, S, n, w);
        assert OfWindow(pl, boxes, S, w) == OfFirstBoxes(pl, boxes, S, n, w);
      }
    } else {
      FullDayFacts(pl, boxes, n);
      assert OfWindow(pl, boxes, FullDay(pl, boxes, n), 0) == FullDay(pl, boxes, n);
    }
  }

  lemma {:induction false} EqualShares(pl: DuePlanner, boxes: seq<int>, share: int, j: nat)
    requires j <= |boxes|
    requires forall m | 0 <= m < |boxes| :: Share(pl, boxes, m) == share
    ensures ShareSum(pl, boxes, j) == j * share
  {
    if j > 0 {
      EqualShares(pl, boxes, share, j - 1);
      assert (j - 1) * share + share == j * share;
    }
  }

  /** With mailbox caps out of the way, the limit is kept exactly when it divides evenly among the mailboxes. */
  lemma DailyLimitKeptIffDivisible(pl: DuePlanner, boxes: seq<int>)
    requires PlansFor(pl, boxes) && |pl.windows| >= 2
    requires pl.campaignDailyLimit.Some? && pl.campaignDailyLimit.value > 0
    requires forall m | 0 <= m < |boxes| ::
      OwnPacing(pl, boxes[m]).dailyCap >= CeilDiv(pl.campaignDailyLimit.value, |boxes|)
    ensures KeepsDailyLimit(pl, boxes, pl.campaignDailyLimit.value)
            <==> pl.campaignDailyLimit.value % |boxes| == 0
  {
    var limit := pl.campaignDailyLimit.value;
    CeilDivBounds(limit, |boxes|);
    EqualShares(pl, boxes, CeilDiv(limit, |boxes|), |boxes|);
    KeepsDailyLimitIff(pl, boxes, limit);
  }
}
