/** One small campaign planned from end to end: the conditions of `CampaignPlanning.Completed` can all be met. */
module PlanningExample {
  import opened Wrappers
  import opened WindowCalendar
  import opened Pacing
  import opened PacingCaps
  import opened PlanningRows
  import opened CampaignPlanning
  import Capture = AudienceCapture
  import Enroll = Enrollment
  import Render = Rendering

  const LEADS: Capture.Facts := map[1 := Capture.Lead(false, Some(10), false, 1, map[])]
  const MEMBER := Member(1, 10, 1, 1, map[], Accepted)
  const ENROLLED := Enroll.Enrolled(1, 10, map[], 7)
  const MESSAGE := Render.Message(100, 7, 1)
  const LEASE := Some(Lease(5, LEASE_TTL_SECONDS))

  function Planner(): DuePlanner {
    DuePlanner([Window(0.0, 3600.0)], 1, None, map[], MailboxPacing(10, 60), (_: int) => 0.0)
  }

  function OneLead(): Campaign { Campaign([1], [7], Planner(), 2) }

  function OneChunkEach(): Runs {
    Runs([Capture.Claim(0, 5), Capture.Commit(0, LEADS, [1])], [MEMBER],
         [Enroll.Claim(0, 5), Enroll.Commit(0, {})], [MESSAGE],
         [Render.Claim(0, 5), Render.Fetch(0), Render.Commit(0, PlanOf(Planner()))])
  }

  lemma CapturedState() returns (s: Capture.State)
    ensures s == Captured(OneLead(), OneChunkEach())
    ensures s.tables.status.Captured? && s.tables.members == {MEMBER}
  {
    var start, c := Capture.Start(1), Capture.Claim(0, 5);
    var s1 := Capture.Step(start, c, 2);
    assert s1.running[0] == Capture.Execution(5, None);
    CaptureChunk(s1.tables);
    s := Capture.Step(s1, Capture.Commit(0, LEADS, [1]), 2);
    var events := OneChunkEach().capture;
    hide Capture.Step;
    assert events[..1] == [c] && [c][..0] == [];
    assert Capture.Run(start, [], 2) == start;
    assert Capture.Run(start, [c], 2) == s1;
  }

  lemma CaptureChunk(t: Capture.Tables)
    requires t.status.Capturing? && t.job.total == 1 && t.members == {}
    ensures Capture.CommitChunk(t, Capture.Execution(5, None), LEADS, [1], 2, 0)
            == Capture.Tables(t.job.(state := Ready, processed := 1), Capture.Captured, {MEMBER})
  {
    Capture.OneRow(LEADS, 1, 0);
    Capture.InsertOne({}, MEMBER);
    assert Capture.Batch(Capture.Cursor([1], 0), 2) == [1];
  }

  lemma EnrolledState() returns (s: Enroll.State)
    ensures s == Enrolled(OneLead(), OneChunkEach())
    ensures s.plan.job.state.Ready? && s.plan.messages == {Enroll.MessageOf(ENROLLED)}
  {
    var g := EnrollSetting(OneLead(), OneChunkEach());
    var start, c := Enroll.Start(g), Enroll.Claim(0, 5);
    var s1 := Enroll.Step(start, c, g);
    assert s1.running[0] == Enroll.Execution(5, None);
    EnrollChunk(s1.plan);
    s := Enroll.Step(s1, Enroll.Commit(0, {}), g);
    var events := OneChunkEach().enroll;
    hide Enroll.Step;
    assert events[..1] == [c] && [c][..0] == [];
    assert Enroll.Run(start, [], g) == start;
    assert Enroll.Run(start, [c], g) == s1;
  }

  lemma EnrollChunk(p: Enroll.Plan)
    requires p.job.total == 1 && p.enrollments == {} && p.messages == {}
    ensures Enroll.CommitChunk(p, Enroll.Execution(5, None), [MEMBER], [7], {}, 2, 0)
            == Enroll.Plan(p.job.(state := Ready, processed := 1), {ENROLLED}, {Enroll.MessageOf(ENROLLED)})
  {
    OneFetched();
    OneEnrolled();
    hide Enroll.Fetch, Enroll.EnrollableRows, Enroll.InsertEnrollments, Enroll.InsertMessages;
  }

  lemma OneFetched()
    ensures Enroll.Fetch([MEMBER], 0, 2) == [MEMBER]
  {
    assert Enroll.CountUpTo([MEMBER], 0) == 0;
  }

  lemma OneEnrolled()
    ensures Enroll.EnrollableRows([MEMBER], [7], {}) == [ENROLLED]
    ensures Enroll.InsertEnrollments({}, [ENROLLED]) == {ENROLLED}
    ensures Enroll.InsertMessages({}, {ENROLLED}, [ENROLLED]) == {Enroll.MessageOf(ENROLLED)}
  {
    assert [MEMBER][..0] == [] && Enroll.EnrollableRows([], [7], {}) == [];
    assert [ENROLLED][..0] == [] && Enroll.InsertEnrollments({}, []) == {};
    assert ENROLLED in [ENROLLED];
  }

  lemma RenderedState() returns (s: Render.State)
    ensures s == Rendered(OneLead(), OneChunkEach()) && s.job.state.Ready?
    ensures Render.AllSkippedHandled(OneChunkEach().render, RenderSetting(OneLead(), OneChunkEach()))
  {
    var g := RenderSetting(OneLead(), OneChunkEach());
    var a, b, c := Render.Claim(0, 5), Render.Fetch(0), Render.Commit(0, PlanOf(Planner()));
    var start := Render.Start(g);
    var s2 := FetchedState(g, start);
    RenderChunk(g, s2.running[0], s2);
    s := Render.Step(s2, c, g);
    var events := OneChunkEach().render;
    hide Render.Step;
    assert events == [a] + ([b] + [c]);
    Render.RunFrom(start, a, [b] + [c], g);
    Render.RunFrom(Render.Step(start, a, g), b, [c], g);
    Render.OneStep(s2, c, g);
    forall k | 0 <= k < |events| && events[k].Claim? ensures Render.Run(start, events[..k], g).running == map[] {
      assert k == 0 && events[..0] == [];
    }
    hide *;
    Render.ExclusiveHandlesSkipped(events, g);
  }

  lemma FetchedState(g: Render.Setting, start: Render.State) returns (s: Render.State)
    requires g == RenderSetting(OneLead(), OneChunkEach()) && start == Render.Start(g)
    ensures s == Render.Step(Render.Step(start, Render.Claim(0, 5), g), Render.Fetch(0), g)
    ensures 0 in s.running && s.running[0] == Render.Fetched(5, 0, [MESSAGE], {})
    ensures s.job == Render.RenderJob(Processing, 0, 1, LEASE) && s.due == map[]
  {
    hide DuePlanner.DueAt, Render.PlanRows, Render.Unhandled;
    var s1 := Render.Step(start, Render.Claim(0, 5), g);
    assert s1.running == map[0 := Render.Claimed(5, 0)];
    assert Render.Locked(s1.running, 0) == {};
    Render.UnhandledNone(map[], {});
    Render.UnhandledHead(MESSAGE, [], map[], {});
    assert [MESSAGE] + [] == [MESSAGE];
    assert Render.Unhandled(g.messages, map[], {}) == [MESSAGE];
    s := Render.Step(s1, Render.Fetch(0), g);
    assert s1.due.Keys == {};
  }

  lemma RenderChunk(g: Render.Setting, x: Render.Execution, s: Render.State)
    requires g == RenderSetting(OneLead(), OneChunkEach()) && s.running.Keys == {0} && s.running[0] == x
    requires x == Render.Fetched(5, 0, [MESSAGE], {}) && s.job == Render.RenderJob(Processing, 0, 1, LEASE)
             && s.due == map[]
    ensures Render.Step(s, Render.Commit(0, PlanOf(Planner())), g).job.state.Ready?
  {
    hide DuePlanner.DueAt;
    PlanAnswersIff(Planner());
    Render.PlanRowsSucceed(s.due, [MESSAGE], PlanOf(Planner()));
  }

  /** The example runs to its end, with its one message planned. */
  lemma OneLeadCompletes()
    ensures Completed(OneLead(), OneChunkEach())
  {
    var captured := CapturedState();
    var enrolled := EnrolledState();
    var rendered := RenderedState();
    var c, r := OneLead(), OneChunkEach();
    hide Capture.Run, Enroll.Run, Render.Run, Render.AllSkippedHandled;
    assert AcceptedInOrder(r.audience, captured.tables.members);
    assert Joins(MESSAGE, Enroll.MessageOf(ENROLLED), r.audience) by { assert MEMBER in r.audience; }
    assert JoinedMessages(r.messages, enrolled.plan.messages, r.audience);
    assert CaptureDone(c, r);
  }
}
