/**
 The daily trend of the workspace overview (backend/app/modules/analytics/repository.py,
 `get_workspace_overview`) over the date bounds of the analytics service.

 Instants are microseconds since the epoch in UTC. A timestamp arrives with the offset of the session it was
 read in, and its day is the date it shows there.
 */
module Trend {
  import opened Wrappers

  const DAY := 86_400_000_000

  datatype Stamp = Stamp(instant: int, offset: int)

  datatype Point = Point(day: int, sent: nat, replies: nat, bounces: nat)

  /** The date a timestamp shows, as a day number. */
  function DayOf(s: Stamp): int { (s.instant + s.offset) / DAY }

  /** How many timestamps show this day; missing ones are skipped. */
  function OnDay(stamps: seq<Option<Stamp>>, day: int): nat {
    if stamps == [] then 0
    else
      var last := stamps[|stamps| - 1];
      OnDay(stamps[..|stamps| - 1], day) + if last.Some? && DayOf(last.value) == day then 1 else 0
  }

  /** How many timestamps show a day from `first` to `last`. */
  function Within(stamps: seq<Option<Stamp>>, first: int, last: int): nat {
    if stamps == [] then 0
    else
      var s := stamps[|stamps| - 1];
      Within(stamps[..|stamps| - 1], first, last) + if s.Some? && first <= DayOf(s.value) <= last then 1 else 0
  }

  function Present(stamps: seq<Option<Stamp>>): nat {
    if stamps == [] then 0 else Present(stamps[..|stamps| - 1]) + if stamps[|stamps| - 1].Some? then 1 else 0
  }

  function Get(counts: map<int, nat>, day: int): nat { if day in counts then counts[day] else 0 }

  // ---- The code -----------------------------------------------------------------------------------

  method CountByDay(stamps: seq<Option<Stamp>>) returns (counts: map<int, nat>)
    ensures forall day :: Get(counts, day) == OnDay(stamps, day)
  {
    counts := map[];
    for i := 0 to |stamps|
      invariant forall day :: Get(counts, day) == OnDay(stamps[..i], day)
    {
      assert stamps[..i + 1][..i] == stamps[..i];
      if stamps[i].Some? {
        var day := DayOf(stamps[i].value);
        counts := counts[day := Get(counts, day) + 1];
      }
    }
    assert stamps[..|stamps|] == stamps;
  }

  /** Every day from `first` to `last` exactly once, in order, with that day's counts. */
  ghost predicate IsTrend(trend: seq<Point>, first: int, last: int, sent: seq<Option<Stamp>>,
                          replies: seq<Option<Stamp>>, bounces: seq<Option<Stamp>>) {
    && |trend| == (if first <= last then last - first + 1 else 0)
    && forall i | 0 <= i < |trend| ::
         trend[i] == Point(first + i, OnDay(sent, first + i), OnDay(replies, first + i), OnDay(bounces, first + i))
  }

  method BuildTrend(first: int, last: int, sent: seq<Option<Stamp>>, replies: seq<Option<Stamp>>,
        bounces: seq<Option<Stamp>>)
    returns (trend: seq<Point>)
    ensures IsTrend(trend, first, last, sent, replies, bounces)
  {
    var sentByDay := CountByDay(sent);
    var repliesByDay := CountByDay(replies);
    var bouncesByDay := CountByDay(bounces);
    trend := [];
    var curr := first;
    while curr <= last
      invariant first <= curr && (curr <= last + 1 || curr == first)
      invariant IsTrend(trend, first, curr - 1, sent, replies, bounces)
      decreases last - curr
    {
      trend := trend + [Point(curr, Get(sentByDay, curr), Get(repliesByDay, curr), Get(bouncesByDay, curr))];
      curr := curr + 1;
    }
  }

  // ---- What the columns add up to --------------------------------------------------------------------

  function SentColumn(trend: seq<Point>): nat {
    if trend == [] then 0 else SentColumn(trend[..|trend| - 1]) + trend[|trend| - 1].sent
  }

  function RepliesColumn(trend: seq<Point>): nat {
    if trend == [] then 0 else RepliesColumn(trend[..|trend| - 1]) + trend[|trend| - 1].replies
  }

  function BouncesColumn(trend: seq<Point>): nat {
    if trend == [] then 0 else BouncesColumn(trend[..|trend| - 1]) + trend[|trend| - 1].bounces
  }

  /** A range one day longer holds that day's timestamps more. */
  lemma {:induction false} OneDayMore(stamps: seq<Option<Stamp>>, first: int, last: int)
    requires first <= last
    ensures Within(stamps, first, last) == Within(stamps, first, last - 1) + OnDay(stamps, last)
  {
    if stamps != [] { OneDayMore(stamps[..|stamps| - 1], first, last); }
  }

  lemma {:induction false} NoDays(stamps: seq<Option<Stamp>>, first: int, last: int)
    requires first > last
    ensures Within(stamps, first, last) == 0
  {
    if stamps != [] { NoDays(stamps[..|stamps| - 1], first, last); }
  }

  /** Each column adds up to the timestamps that show a day of the range. */
  lemma {:induction false} ColumnsAddUp(trend: seq<Point>, first: int, last: int, sent: seq<Option<Stamp>>,
                                        replies: seq<Option<Stamp>>, bounces: seq<Option<Stamp>>)
    requires IsTrend(trend, first, last, sent, replies, bounces)
    ensures SentColumn(trend) == Within(sent, first, last) && RepliesColumn(trend) == Within(replies, first, last)
    ensures BouncesColumn(trend) == Within(bounces, first, last)
    decreases |trend|
  {
    if first > last {
      NoDays(sent, first, last);
      NoDays(replies, first, last);
      NoDays(bounces, first, last);
    } else {
      ColumnsAddUp(trend[..|trend| - 1], first, last - 1, sent, replies, bounces);
      OneDayMore(sent, first, last);
      OneDayMore(replies, first, last);
      OneDayMore(bounces, first, last);
    }
  }

  ghost predicate AllShowDays(stamps: seq<Option<Stamp>>, first: int, last: int) {
    forall s | s in stamps && s.Some? :: first <= DayOf(s.value) <= last
  }

  lemma {:induction false} WithinIsAllIff(stamps: seq<Option<Stamp>>, first: int, last: int)
    ensures Within(stamps, first, last) <= Present(stamps)
    ensures Within(stamps, first, last) == Present(stamps) <==> AllShowDays(stamps, first, last)
  {
    if stamps != [] {
      var init, s := stamps[..|stamps| - 1], stamps[|stamps| - 1];
      WithinIsAllIff(init, first, last);
      assert stamps == init + [s];
      if AllShowDays(init, first, last) && (s.Some? ==> first <= DayOf(s.value) <= last) {
        assert AllShowDays(stamps, first, last);
      }
      if AllShowDays(stamps, first, last) {
        assert s in stamps;
        assert AllShowDays(init, first, last);
      }
    }
  }

  /** The sent column adds up to the sent count exactly when every timestamp shows a day of the range. */
  lemma SentColumnIsTotalIff(trend: seq<Point>, first: int, last: int, sent: seq<Option<Stamp>>,
                             replies: seq<Option<Stamp>>, bounces: seq<Option<Stamp>>)
    requires IsTrend(trend, first, last, sent, replies, bounces)
    ensures SentColumn(trend) == Present(sent) <==> AllShowDays(sent, first, last)
  {
    ColumnsAddUp(trend, first, last, sent, replies, bounces);
    WithinIsAllIff(sent, first, last);
  }

  // ---- The query's bounds -------------------------------------------------------------------------------

  /** The instants the query selects: from the first moment of `first` to the last microsecond of `last`, in UTC. */
  ghost predicate Selected(stamps: seq<Option<Stamp>>, first: int, last: int) {
    forall s | s in stamps && s.Some? :: first * DAY <= s.value.instant <= last * DAY + DAY - 1
  }

  /** Read in a UTC session, every selected timestamp shows a day of the range, so the column is the total. */
  lemma UtcSessionAddsUp(trend: seq<Point>, first: int, last: int, sent: seq<Option<Stamp>>,
                         replies: seq<Option<Stamp>>, bounces: seq<Option<Stamp>>)
    requires IsTrend(trend, first, last, sent, replies, bounces) && Selected(sent, first, last)
    requires forall s | s in sent && s.Some? :: s.value.offset == 0
    ensures SentColumn(trend) == Present(sent)
  {
    forall s | s in sent && s.Some? ensures first <= DayOf(s.value) <= last {
    }
    SentColumnIsTotalIff(trend, first, last, sent, replies, bounces);
  }

  /** All timestamps are shown in a session of this offset. */
  ghost predicate InSession(stamps: seq<Option<Stamp>>, offset: int) {
    forall s | s in stamps && s.Some? :: s.value.offset == offset
  }

  /** In a session of this offset the sent column of every trend adds up to what the query selected. */
  ghost predicate AlwaysAddsUp(offset: int) {
    forall trend, first, last, sent, replies, bounces
      | IsTrend(trend, first, last, sent, replies, bounces) && Selected(sent, first, last) && InSession(sent, offset) ::
      SentColumn(trend) == Present(sent)
  }

  /** A selected timestamp that shows another day than the one asked for is lost from the trend. */
  lemma LostDay(day: int, stamp: Stamp)
    requires Selected([Some(stamp)], day, day) && DayOf(stamp) != day
    ensures !AlwaysAddsUp(stamp.offset)
  {
    var sent: seq<Option<Stamp>> := [Some(stamp)];
    var trend := [Point(day, OnDay(sent, day), OnDay([], day), OnDay([], day))];
    assert IsTrend(trend, day, day, sent, [], []);
    SentColumnIsTotalIff(trend, day, day, sent, [], []);
    assert Some(stamp) in sent;
  }

  /** In a session east of UTC the evening of the last day already shows the next date. */
  lemma EasternSessionLosesEvening(day: int, offset: int)
    requires offset > 0
    ensures var evening := Stamp(day * DAY + DAY - 1, offset);
            Selected([Some(evening)], day, day) && DayOf(evening) > day && Within([Some(evening)], day, day) == 0
  {
    Shows(Stamp(day * DAY + DAY - 1, offset), day);
  }

  /** In a session west of UTC the first moment of the first day still shows the day before. */
  lemma WesternSessionLosesMorning(day: int, offset: int)
    requires offset < 0
    ensures var morning := Stamp(day * DAY, offset);
            Selected([Some(morning)], day, day) && DayOf(morning) < day && Within([Some(morning)], day, day) == 0
  {
    Shows(Stamp(day * DAY, offset), day);
  }

  lemma Shows(stamp: Stamp, day: int)
    requires DayOf(stamp) != day
    ensures Within([Some(stamp)], day, day) == 0
  {
    var stamps: seq<Option<Stamp>> := [Some(stamp)];
    assert stamps[..0] == [];
  }

  /** Exactly in UTC sessions every trend adds up. */
  lemma AddsUpInUtcOnly(offset: int)
    ensures AlwaysAddsUp(offset) <==> offset == 0
  {
    if offset == 0 {
      forall trend, first, last, sent, replies, bounces
        | IsTrend(trend, first, last, sent, replies, bounces) && Selected(sent, first, last) && InSession(sent, offset)
        ensures SentColumn(trend) == Present(sent)
      {
        UtcSessionAddsUp(trend, first, last, sent, replies, bounces);
      }
    } else if offset > 0 {
      EasternSessionLosesEvening(0, offset);
      LostDay(0, Stamp(DAY - 1, offset));
    } else {
      WesternSessionLosesMorning(0, offset);
      LostDay(0, Stamp(0, offset));
    }
  }

  // ---- Replies: rows and enrollments -----------------------------------------------------------------------

  /** A reply row; one enrollment can have several. */
  datatype Reply = Reply(enrollment: int, at: Stamp)

  function Times(replies: seq<Reply>): seq<Option<Stamp>> { seq(|replies|,
        i requires 0 <= i < |replies| => Some(replies[i].at)) }

  ghost function Repliers(replies: seq<Reply>): set<int> { set r | r in replies :: r.enrollment }

  lemma {:induction false} TimesPresent(replies: seq<Reply>)
    ensures Present(Times(replies)) == |replies|
  {
    if replies != [] {
      assert Times(replies)[..|replies| - 1] == Times(replies[..|replies| - 1]);
      TimesPresent(replies[..|replies| - 1]);
    }
  }

  ghost predicate OneReplyEach(replies: seq<Reply>) {
    forall i, j | 0 <= i < j < |replies| :: replies[i].enrollment != replies[j].enrollment
  }

  lemma OneReplyMore(replies: seq<Reply>, r: Reply)
    ensures OneReplyEach(replies + [r]) <==> OneReplyEach(replies) && r.enrollment !in Repliers(replies)
  {
    var more := replies + [r];
    if OneReplyEach(more) {
      forall i, j | 0 <= i < j < |replies| ensures replies[i].enrollment != replies[j].enrollment {
        assert more[i] == replies[i] && more[j] == replies[j];
      }
      forall i | 0 <= i < |replies| ensures replies[i].enrollment != r.enrollment {
        assert more[i].enrollment != more[|replies|].enrollment;
      }
    }
    if OneReplyEach(replies) && r.enrollment !in Repliers(replies) {
      forall i | 0 <= i < |replies| ensures replies[i].enrollment != r.enrollment { assert replies[i] in replies; }
    }
  }

  lemma {:induction false} RepliersCountIff(replies: seq<Reply>)
    ensures |Repliers(replies)| <= |replies|
    ensures |Repliers(replies)| == |replies| <==> OneReplyEach(replies)
  {
    if replies == [] {
      assert Repliers(replies) == {};
    } else {
      var init, last := replies[..|replies| - 1], replies[|replies| - 1];
      assert replies == init + [last];
      RepliersCountIff(init);
      OneReplyMore(init, last);
      assert Repliers(replies) == Repliers(init) + {last.enrollment};
      hide OneReplyEach, Repliers;
    }
  }

  /**
   The headline counts enrollments that replied, the trend counts reply rows: the two agree exactly when no
   enrollment replied twice in the range.
   */
  lemma RepliesColumnIsHeadlineIff(trend: seq<Point>, first: int, last: int, sent: seq<Option<Stamp>>,
                                   replies: seq<Reply>, bounces: seq<Option<Stamp>>)
    requires IsTrend(trend, first, last, sent, Times(replies), bounces)
    requires forall r | r in replies :: first <= DayOf(r.at) <= last
    ensures RepliesColumn(trend) >= |Repliers(replies)|
    ensures RepliesColumn(trend) == |Repliers(replies)| <==> OneReplyEach(replies)
  {
    ColumnsAddUp(trend, first, last, sent, Times(replies), bounces);
    forall s | s in Times(replies) && s.Some? ensures first <= DayOf(s.value) <= last {
      var i :| 0 <= i < |replies| && Times(replies)[i] == s;
      assert replies[i] in replies;
    }
    WithinIsAllIff(Times(replies), first, last);
    TimesPresent(replies);
    RepliersCountIff(replies);
  }
}
