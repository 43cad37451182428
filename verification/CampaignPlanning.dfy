/**
 The three planning phases put together: what a whole planned campaign looks like once its audience
 is captured, its enrollment is READY and its rendering is READY, whatever the three runs were.
 */
module CampaignPlanning {
  import opened Arithmetic
  import opened Wrappers
  import opened WindowCalendar
  import opened Pacing
  import opened PacingSpacing
  import opened PacingCaps
  import opened PlanningRows
  import opened RollingDay
  import Capture = AudienceCapture
  import Enroll = Enrollment
  import Render = Rendering

  /** What the activation fixes; leads and suppression are what the chunks found. */
  datatype Campaign = Campaign(candidates: seq<int>, boxes: seq<int>, planner: DuePlanner, limit: nat)

  /** The runs of the three phases, with the rows each hands to the next. */
  datatype Runs = Runs(capture: seq<Capture.Event>, audience: seq<Member>, enroll: seq<Enroll.Event>,
                       messages: seq<Render.Message>, render: seq<Render.Event>)

  function Captured(c: Campaign, r: Runs): Capture.State {
    Capture.Run(Capture.Start(|c.candidates|), r.capture, c.limit)
  }

  function EnrollSetting(c: Campaign, r: Runs): Enroll.Setting { Enroll.Setting(r.audience, c.boxes, c.limit) }

  function Enrolled(c: Campaign, r: Runs): Enroll.State {
    Enroll.Run(Enroll.Start(EnrollSetting(c, r)), r.enroll, EnrollSetting(c, r))
  }

  /** The planner as the render phase uses it. */
  function PlanOf(planner: DuePlanner): Render.Planner { (box, ordinal, id) => planner.DueAt(box, ordinal, id) }

  /** A planner has a time for every message exactly when its calendar has a window. */
  lemma PlanAnswersIff(planner: DuePlanner)
    ensures Render.Answers(PlanOf(planner)) <==> planner.windows != []
  {
    hide DueInWindow;
    forall box, ordinal, id ensures planner.DueAt(box, ordinal, id).Success? <==> planner.windows != [] {}
    assert PlanOf(planner)(0, 1, 0) == planner.DueAt(0, 1, 0);
  }

  function RenderSetting(c: Campaign, r: Runs): Render.Setting {
    Render.Setting(r.messages, |r.audience|, c.limit)
  }

  ghost function Rendered(c: Campaign, r: Runs): Render.State {
    Render.Run(Render.Start(RenderSetting(c, r)), r.render, RenderSetting(c, r))
  }

  // ---- How one phase's rows reach the next ----------------------------------------------------

  /** The accepted members in ordinal order. */
  ghost predicate AcceptedInOrder(audience: seq<Member>, members: set<Member>) {
    && (forall m :: m in audience <==> m in members && m.eligibility.Accepted?)
    && (forall i, j | 0 <= i < j < |audience| :: audience[i].ordinal < audience[j].ordinal)
  }

  /** The render query joins a message to its enrollment's member. */
  ghost predicate Joins(m: Render.Message, f: Enroll.FirstMessage, audience: seq<Member>) {
    m.mailbox == f.mailbox && exists a | a in audience :: a.lead == f.enrollment && a.ordinal == m.ordinal
  }

  /** The messages the render phase reads are the first messages, one row each. */
  ghost predicate JoinedMessages(messages: seq<Render.Message>, firsts: set<Enroll.FirstMessage>,
        audience: seq<Member>)
  {
    && Render.DistinctIds(messages)
    && (forall m | m in messages :: exists f | f in firsts :: Joins(m, f, audience))
    && (forall f | f in firsts :: exists m | m in messages :: Joins(m, f, audience))
    && (forall m, m', f | m in messages && m' in messages && f in firsts && Joins(m, f, audience)
      && Joins(m', f, audience) :: m == m')
  }

  ghost predicate DistinctBoxes(boxes: seq<int>) {
    forall i, j | 0 <= i < j < |boxes| :: boxes[i] != boxes[j]
  }

  ghost predicate CaptureDone(c: Campaign, r: Runs) {
    && Capture.Distinct(c.candidates) && c.limit >= 1 && Capture.Frozen(r.capture, c.candidates)
    && Captured(c, r).tables.status.Captured?
    && AcceptedInOrder(r.audience, Captured(c, r).tables.members)
  }

  /**
   All three phases ran to their end. Renders may have overlapped, as long as what a finishing chunk skipped was
   handled (exclusive renders always meet that), and all planned with the same limits.
   */
  ghost predicate Completed(c: Campaign, r: Runs) {
    && CaptureDone(c, r)
    && PlansFor(c.planner, c.boxes) && DistinctBoxes(c.boxes) && Ordered(c.planner.windows)
    && Enrolled(c, r).plan.job.state.Ready?
    && JoinedMessages(r.messages, Enrolled(c, r).plan.messages, r.audience)
    && Render.FixedPlanner(r.render, PlanOf(c.planner))
    && Render.AllSkippedHandled(r.render, RenderSetting(c, r)) && Rendered(c, r).job.state.Ready?
  }

  // ---- From candidates to members ----------------------------------------------------------------

  /** Under this version the lead has an address and is neither archived nor suppressed. */
  predicate AcceptedIn(f: Capture.Facts, id: int) {
    id in f && f[id].address.Some? && !f[id].archived && !f[id].suppressed
  }

  /** The member is the lead as this version shows it. */
  predicate ShownIn(f: Capture.Facts, m: Member) {
    m.lead in f && f[m.lead].address == Some(m.address) && m.revision == f[m.lead].revision
    && m.variables == f[m.lead].variables
  }

  /** Member `m` is candidate `i`, which some capture chunk found fit to be written to, with just these data. */
  ghost predicate AcceptedCandidate(c: Campaign, r: Runs, i: nat, m: Member)
    requires i < |c.candidates|
  {
    && m.lead == c.candidates[i] && m.ordinal == i + 1
    && exists f | f in Captured(c, r).seen :: AcceptedIn(f, c.candidates[i]) && ShownIn(f, m)
  }

  /** The candidate with this ordinal was accepted by some capture chunk. */
  ghost predicate AcceptedOrdinal(c: Campaign, r: Runs, ordinal: int) {
    1 <= ordinal <= |c.candidates| && exists f | f in Captured(c, r).seen ::
      AcceptedIn(f, c.candidates[ordinal - 1])
  }

  /** Candidate `i` is accepted in every version of the leads that a capture chunk read. */
  ghost predicate AlwaysAccepted(c: Campaign, r: Runs, i: nat)
    requires i < |c.candidates|
  {
    forall f | f in Captured(c, r).seen :: AcceptedIn(f, c.candidates[i])
  }

  /** While the audience was captured no address went from a candidate to one of a later chunk. */
  ghost predicate AddressesKept(c: Campaign, r: Runs)
    requires c.limit >= 1
  {
    && (forall f | f in Captured(c, r).seen :: Capture.OwnAddresses(f))
    && Capture.NoAddressPasses(c.candidates, Captured(c, r).seen, c.limit)
  }

  /**
   What enrollment reads of a captured audience: only accepted candidates, each at its ordinal, and every
   candidate accepted throughout unless an address went on to it from an earlier chunk.
   */
  lemma AudienceIsAcceptedCandidates(c: Campaign, r: Runs)
    requires CaptureDone(c, r)
    ensures Enroll.Audience(r.audience)
    ensures forall m | m in r.audience ::
      1 <= m.ordinal <= |c.candidates| && AcceptedCandidate(c, r, m.ordinal - 1, m)
    ensures AddressesKept(c, r) ==> forall i: nat | i < |c.candidates| && AlwaysAccepted(c, r, i) ::
      exists a :: a in r.audience && a.ordinal == i + 1
  {
    hide Capture.Run, Capture.MemberOf, Capture.OwnAddresses, Capture.HandledUpTo, Capture.NoAddressPasses;
    var s := Captured(c, r);
    Capture.CompletedCaptureIsFaithful(r.capture, c.candidates, c.limit);
    forall m | m in r.audience ensures 1 <= m.ordinal <= |c.candidates| && AcceptedCandidate(c, r, m.ordinal - 1, m) {
      assert Capture.Faithful(m, s.seen, c.candidates);
      var f :| f in s.seen && Capture.MemberOf(f, c.candidates[m.ordinal - 1], m.ordinal) == Some(m);
      Capture.MemberOfIff(f, c.candidates[m.ordinal - 1], m.ordinal, m);
      assert AcceptedIn(f, c.candidates[m.ordinal - 1]) && ShownIn(f, m);
    }
    forall i, j | 0 <= i < j < |r.audience| ensures !Clashes(r.audience[i], r.audience[j]) {
      assert r.audience[i] in s.tables.members && r.audience[j] in s.tables.members;
    }
    forall i | 0 <= i < |r.audience| ensures r.audience[i].ordinal >= 1 && r.audience[i].eligibility.Accepted? {
      assert r.audience[i] in r.audience;
    }
    if AddressesKept(c, r) {
      forall i: nat | i < |c.candidates| && AlwaysAccepted(c, r, i)
        ensures exists a :: a in r.audience && a.ordinal == i + 1
      {
        var a := AcceptedIsStored(c, r, i);
      }
    }
  }

  lemma AcceptedIsStored(c: Campaign, r: Runs, i: nat) returns (a: Member)
    requires CaptureDone(c, r) && AddressesKept(c, r) && i < |c.candidates| && AlwaysAccepted(c, r, i)
    ensures a in r.audience && a.ordinal == i + 1
  {
    hide Capture.Run, Capture.MemberOf, Capture.OwnAddresses, Capture.HandledUpTo, Capture.NoAddressPasses,
      Capture.Frozen;
    var s := Captured(c, r);
    Capture.CompletedCaptureIsFaithful(r.capture, c.candidates, c.limit);
    Capture.NoPassNoLoss(r.capture, c.candidates, s.seen, c.limit);
    assert Capture.AlwaysAddressed(c.candidates, s.seen, i) by {
      forall f | f in s.seen ensures Capture.MemberOf(f, c.candidates[i], i + 1).Some? {
        assert AcceptedIn(f, c.candidates[i]);
        Capture.MemberOfIff(f, c.candidates[i], i + 1, Member(0, 0, 0, 0, map[], Accepted));
      }
    }
    assert Capture.HasRow(s.tables.members, i);
    a :| a in s.tables.members && a.ordinal == i + 1;
    assert Capture.Faithful(a, s.seen, c.candidates);
    var f :| f in s.seen && Capture.MemberOf(f, c.candidates[i], i + 1) == Some(a);
    Capture.MemberOfIff(f, c.candidates[i], i + 1, a);
    assert AcceptedIn(f, c.candidates[i]);
  }

  // ---- From members to messages --------------------------------------------------------------------

  /** The mailbox the round robin gives an ordinal. */
  function BoxOf(boxes: seq<int>, ordinal: int): int
    requires boxes != []
  {
    boxes[BoxIndex(boxes, ordinal)]
  }

  lemma SameOrdinal(audience: seq<Member>, a: Member, b: Member)
    requires Enroll.Audience(audience) && a in audience && b in audience && (a.lead == b.lead || a.ordinal == b.ordinal)
    ensures a == b
  {
    var i :| 0 <= i < |audience| && audience[i] == a;
    var j :| 0 <= j < |audience| && audience[j] == b;
  }

  /** An enrollment's first message is on the mailbox its member's ordinal picks. */
  lemma MailboxOfFirst(c: Campaign, r: Runs, f: Enroll.FirstMessage) returns (a: Member)
    requires Enroll.Audience(r.audience) && c.boxes != [] && c.limit >= 1
    requires f in Enrolled(c, r).plan.messages
    ensures a in r.audience && a.lead == f.enrollment && f.mailbox == BoxOf(c.boxes, a.ordinal)
  {
    hide Enroll.Run, Enroll.Audience;
    var g := EnrollSetting(c, r);
    Enroll.EnrollmentIsExact(r.enroll, g);
    var s := Enrolled(c, r);
    var e :| e in s.plan.enrollments && f == Enroll.MessageOf(e);
    assert Enroll.Faithful(e, s.seen, g);
    a :| a in g.audience && e == Enroll.EnrollmentOf(a, g.boxes);
  }

  /** Every message is on its ordinal's mailbox, belongs to an accepted member, and no two share an ordinal. */
  lemma MessagesOfMembers(c: Campaign, r: Runs)
    requires CaptureDone(c, r) && c.boxes != []
    requires JoinedMessages(r.messages, Enrolled(c, r).plan.messages, r.audience)
    ensures forall m | m in r.messages ::
      m.mailbox == BoxOf(c.boxes, m.ordinal) && exists a :: a in r.audience && a.ordinal == m.ordinal
    ensures forall m, m' | m in r.messages && m' in r.messages && m.ordinal == m'.ordinal :: m == m'
  {
    hide Enroll.Run, Enroll.Audience, CaptureDone, Enrolled;
    assert Enroll.Audience(r.audience) by { AudienceIsAcceptedCandidates(c, r); }
    assert c.limit >= 1 by { LimitPositive(c, r); }
    var firsts := Enrolled(c, r).plan.messages;
    forall m | m in r.messages
      ensures m.mailbox == BoxOf(c.boxes, m.ordinal) && exists a :: a in r.audience && a.ordinal == m.ordinal
    {
      var f, a := FirstOf(c, r, m);
    }
    forall m, m' | m in r.messages && m' in r.messages && m.ordinal == m'.ordinal ensures m == m' {
      var f, a := FirstOf(c, r, m);
      var f', a' := FirstOf(c, r, m');
      SameOrdinal(r.audience, a, a');
      OneFirstEach(c, r, f, f');
    }
  }

  lemma LimitPositive(c: Campaign, r: Runs)
    requires CaptureDone(c, r)
    ensures c.limit >= 1
  {
  }

  lemma FirstOf(c: Campaign, r: Runs, m: Render.Message) returns (f: Enroll.FirstMessage, a: Member)
    requires Enroll.Audience(r.audience) && c.boxes != [] && c.limit >= 1 && m in r.messages
    requires JoinedMessages(r.messages, Enrolled(c, r).plan.messages, r.audience)
    ensures f in Enrolled(c, r).plan.messages && Joins(m, f, r.audience)
    ensures a in r.audience && a.lead == f.enrollment && a.ordinal == m.ordinal
            && m.mailbox == BoxOf(c.boxes, m.ordinal)
  {
    hide Enroll.Run, Enroll.Audience, Enrolled;
    f :| f in Enrolled(c, r).plan.messages && Joins(m, f, r.audience);
    a :| a in r.audience && a.lead == f.enrollment && a.ordinal == m.ordinal;
    var a' := MailboxOfFirst(c, r, f);
    SameOrdinal(r.audience, a, a');
  }

  lemma OneFirstEach(c: Campaign, r: Runs, f: Enroll.FirstMessage, f': Enroll.FirstMessage)
    requires Enroll.Audience(r.audience) && c.boxes != [] && c.limit >= 1
    requires f in Enrolled(c, r).plan.messages && f' in Enrolled(c, r).plan.messages && f.enrollment == f'.enrollment
    ensures f == f'
  {
    hide Enroll.Run, Enroll.Audience;
    Enroll.EnrollmentIsExact(r.enroll, EnrollSetting(c, r));
  }

  // ---- Main results ----------------------------------------------------------------------------------

  /** The planner's time for a message, in the vocabulary of places and windows. */
  ghost predicate DueAsPlanned(c: Campaign, m: Render.Message, at: real) {
    c.planner.DueAt(m.mailbox, m.ordinal, m.id) == Success(at)
  }

  /** Some chunk of the enrollment found the address suppressed. */
  ghost predicate FoundSuppressed(c: Campaign, r: Runs, address: int) {
    exists sup | sup in Enrolled(c, r).seen :: address in sup
  }

  /** The candidate became a member whose address enrollment found suppressed. */
  ghost predicate DroppedAsSuppressed(c: Campaign, r: Runs, i: nat) {
    exists a :: a in r.audience && a.ordinal == i + 1 && FoundSuppressed(c, r, a.address)
  }

  ghost predicate HasMessage(r: Runs, i: nat) {
    exists m :: m in r.messages && m.ordinal == i + 1
  }

  /**
   Nobody is lost and nobody is written to twice, in a completed campaign whose leads may change all along:
   if no address went on to a later chunk, each candidate accepted throughout was found suppressed during
   enrollment or has exactly one message. Each message is some accepted candidate's, on the mailbox its
   place in the list picks, due at the time the planner gives that place.
   */
  lemma EveryCandidatePlannedOnce(c: Campaign, r: Runs)
    requires Completed(c, r)
    ensures AddressesKept(c, r) ==> forall i: nat | i < |c.candidates| && AlwaysAccepted(c, r, i) ::
      DroppedAsSuppressed(c, r, i) || HasMessage(r, i)
    ensures forall m, m' | m in r.messages && m' in r.messages && m.ordinal == m'.ordinal :: m == m'
    ensures forall m | m in r.messages ::
      && AcceptedOrdinal(c, r, m.ordinal)
      && m.mailbox == BoxOf(c.boxes, m.ordinal)
      && m.id in Rendered(c, r).due && DueAsPlanned(c, m, Rendered(c, r).due[m.id])
  {
    hide Capture.Run, Capture.MemberOf, Enroll.Run, Render.Run, DuePlanner.DueAt, Capture.NoAddressPasses,
      AcceptedCandidate, AlwaysAccepted, AddressesKept;
    AudienceIsAcceptedCandidates(c, r);
    MessagesOfMembers(c, r);
    DueTimesOfMessages(c, r);
    if AddressesKept(c, r) {
      forall i: nat | i < |c.candidates| && AlwaysAccepted(c, r, i)
        ensures DroppedAsSuppressed(c, r, i) || HasMessage(r, i)
      {
        var a :| a in r.audience && a.ordinal == i + 1;
        if !FoundSuppressed(c, r, a.address) { var m := MessageOfMember(c, r, a); }
      }
    }
    forall m | m in r.messages
      ensures AcceptedOrdinal(c, r, m.ordinal)
    {
      var a :| a in r.audience && a.ordinal == m.ordinal;
      OrdinalAccepted(c, r, a.ordinal - 1, a);
    }
  }

  lemma OrdinalAccepted(c: Campaign, r: Runs, i: nat, a: Member)
    requires i < |c.candidates| && AcceptedCandidate(c, r, i, a)
    ensures AcceptedOrdinal(c, r, i + 1)
  {
    hide Captured;
    var f :| f in Captured(c, r).seen && AcceptedIn(f, c.candidates[i]) && ShownIn(f, a);
  }

  /** Whoever no capture chunk saw fit, for want of an address, archived or suppressed, is not written to. */
  lemma NobodyExcludedIsWrittenTo(c: Campaign, r: Runs, i: nat)
    requires Completed(c, r) && i < |c.candidates|
    requires forall f: Capture.Facts | f in Captured(c, r).seen && c.candidates[i] in f ::
               f[c.candidates[i]].archived || f[c.candidates[i]].suppressed || f[c.candidates[i]].address.None?
    ensures !HasMessage(r, i)
  {
    hide Completed, Captured, DueAsPlanned;
    EveryCandidatePlannedOnce(c, r);
    forall m | m in r.messages ensures m.ordinal != i + 1 {
      assert AcceptedOrdinal(c, r, m.ordinal);
    }
  }

  /** Leads that did not change while captured: exactly the candidates accepted under them are written to. */
  lemma UnchangedLeadsPlannedOnce(c: Campaign, r: Runs, facts: Capture.Facts)
    requires Completed(c, r) && Capture.Unchanged(r.capture, facts) && Capture.OwnAddresses(facts)
    ensures forall i: nat | i < |c.candidates| && AcceptedIn(facts, c.candidates[i]) ::
      DroppedAsSuppressed(c, r, i) || HasMessage(r, i)
    ensures forall m | m in r.messages ::
      1 <= m.ordinal <= |c.candidates| && AcceptedIn(facts, c.candidates[m.ordinal - 1])
  {
    hide Capture.Run, Capture.MemberOf, Enroll.Run, Render.Run, Capture.OwnAddresses, DueAsPlanned, DroppedAsSuppressed,
      HasMessage, JoinedMessages, Ordered, PlansFor, Capture.Unchanged;
    EveryCandidatePlannedOnce(c, r);
    Capture.SeenOnly(r.capture, facts, |c.candidates|, c.limit);
    OneVersionKeeps(c.candidates, Captured(c, r).seen, c.limit, facts);
    forall m | m in r.messages
      ensures 1 <= m.ordinal <= |c.candidates| && AcceptedIn(facts, c.candidates[m.ordinal - 1])
    {
      assert AcceptedOrdinal(c, r, m.ordinal);
    }
  }

  /** Within one version no address passes. */
  lemma OneVersionKeeps(candidates: seq<int>, seen: set<Capture.Facts>, limit: nat, facts: Capture.Facts)
    requires Capture.Distinct(candidates) && limit >= 1 && seen <= {facts} && Capture.OwnAddresses(facts)
    ensures Capture.NoAddressPasses(candidates, seen, limit)
  {
    hide Capture.MemberOf, Capture.OwnAddresses, Capture.ChunkStart;
    forall i: nat, j: nat, f, f' | i < |candidates| && j < |candidates| && f in seen && f' in seen
      ensures !Capture.AddressPasses(candidates, limit, f, i, f', j)
    {
      if i < j && Capture.MemberOf(f, candidates[i], i + 1).Some? && Capture.MemberOf(f, candidates[j], j + 1).Some? {
        Capture.OtherAddress(facts, candidates, i, j);
      }
    }
  }

  lemma MessageOfMember(c: Campaign, r: Runs, a: Member) returns (m: Render.Message)
    requires Completed(c, r) && Enroll.Audience(r.audience) && a in r.audience && !FoundSuppressed(c, r, a.address)
    ensures m in r.messages && m.ordinal == a.ordinal
  {
    hide Capture.Run, Capture.MemberOf, Capture.OwnAddresses, Enroll.Run, Render.Run, Enroll.Audience, Ordered;
    var g := EnrollSetting(c, r);
    var s := Enrolled(c, r);
    Enroll.EnrollmentIsExact(r.enroll, g);
    assert Enroll.Handled(s.plan.enrollments, s.seen, a, g.boxes);
    var e := Enroll.EnrollmentOf(a, g.boxes);
    assert e in s.plan.enrollments;
    assert Enroll.MessageOf(e) in s.plan.messages;
    m :| m in r.messages && Joins(m, Enroll.MessageOf(e), r.audience);
    var a' :| a' in r.audience && a'.lead == e.lead && a'.ordinal == m.ordinal;
    SameOrdinal(r.audience, a, a');
  }

  /** No more messages than accepted members, so the count check never fires. */
  lemma MessagesFitTotal(c: Campaign, r: Runs)
    requires Completed(c, r)
    ensures Render.Sensible(RenderSetting(c, r))
  {
    hide CaptureDone, Capture.Run, Enroll.Run, Render.Run, Ordered;
    AudienceIsAcceptedCandidates(c, r);
    MessagesOfMembers(c, r);
    LimitPositive(c, r);
    FewerMessages(r.messages, r.audience);
  }

  lemma {:induction false} FewerMessages(messages: seq<Render.Message>, audience: seq<Member>)
    requires Render.DistinctIds(messages)
    requires forall m | m in messages :: exists a :: a in audience && a.ordinal == m.ordinal
    requires forall m, m' | m in messages && m' in messages && m.ordinal == m'.ordinal :: m == m'
    ensures |messages| <= |audience|
  {
    OrdinalsCount(messages);
    var ordinals := set m | m in messages :: m.ordinal;
    OrdinalsBound(audience);
    var all := set a | a in audience :: a.ordinal;
    assert ordinals <= all;
    Render.SubsetSize(ordinals, all);
  }

  lemma {:induction false} OrdinalsCount(messages: seq<Render.Message>)
    requires Render.DistinctIds(messages)
    requires forall m, m' | m in messages && m' in messages && m.ordinal == m'.ordinal :: m == m'
    ensures |set m | m in messages :: m.ordinal| == |messages|
  {
    var all := set m | m in messages :: m.ordinal;
    if messages == [] {
      assert all == {};
    } else {
      var init, last := messages[..|messages| - 1], messages[|messages| - 1];
      assert messages == init + [last];
      OrdinalsCount(init);
      var before := set m | m in init :: m.ordinal;
      assert all == before + {last.ordinal};
      forall i | 0 <= i < |init| ensures init[i].ordinal != last.ordinal {
        assert init[i] == messages[i] && messages[i] in messages && last in messages;
        assert messages[i].id != last.id;
      }
    }
  }

  lemma {:induction false} OrdinalsBound(audience: seq<Member>)
    ensures |set a | a in audience :: a.ordinal| <= |audience|
  {
    var all := set a | a in audience :: a.ordinal;
    if audience == [] {
      assert all == {};
    } else {
      var init, last := audience[..|audience| - 1], audience[|audience| - 1];
      assert audience == init + [last];
      OrdinalsBound(init);
      var before := set a | a in init :: a.ordinal;
      assert all == before + {last.ordinal};
    }
  }

  lemma RenderDone(c: Campaign, r: Runs)
    requires Completed(c, r)
    ensures Render.FixedPlanner(r.render, PlanOf(c.planner)) && Render.AllSkippedHandled(r.render, RenderSetting(c, r))
    ensures Rendered(c, r) == Render.Run(Render.Start(RenderSetting(c, r)), r.render, RenderSetting(c, r))
    ensures Rendered(c, r).job.state.Ready? && RenderSetting(c, r).messages == r.messages
            && RenderSetting(c, r).limit == c.limit
    ensures RenderSetting(c, r).(limit := c.limit) == RenderSetting(c, r)
  {
    hide Render.Run, Render.AllSkippedHandled, CaptureDone, Ordered;
  }

  /** With one planner a message has one time. */
  lemma PlannedTime(g: Render.Setting, planner: DuePlanner, m: Render.Message, at: real)
    requires Render.DistinctIds(g.messages) && m in g.messages && Render.IsPlanned(g, [PlanOf(planner)], m.id, at)
    ensures planner.DueAt(m.mailbox, m.ordinal, m.id) == Success(at)
  {
    hide DuePlanner.DueAt;
    var m' :| m' in g.messages && m'.id == m.id && Render.GivenBy(m', [PlanOf(planner)], at);
    assert m == m';
  }

  lemma DueTimesOfMessages(c: Campaign, r: Runs)
    requires Completed(c, r)
    ensures forall m | m in r.messages :: m.id in Rendered(c, r).due && DueAsPlanned(c, m, Rendered(c, r).due[m.id])
  {
    hide Completed, RenderSetting, Rendered, Render.Run, DuePlanner.DueAt, Render.IsPlanned, Render.AllSkippedHandled,
      Render.FixedPlanner, Render.Remaining;
    MessagesFitTotal(c, r);
    RenderDone(c, r);
    var g := RenderSetting(c, r);
    Render.ReadyLeavesNothingIff(r.render, g);
    Render.NoneLeft(Rendered(c, r), g);
    Render.DueTimesAgree(r.render, r.render, g, c.limit, PlanOf(c.planner));
    var due := Rendered(c, r).due;
    forall m | m in r.messages ensures m.id in due && DueAsPlanned(c, m, due[m.id]) {
      PlannedTime(g, c.planner, m, due[m.id]);
    }
  }

  /** The place of an ordinal in its mailbox's queue. */
  function Place(boxes: seq<int>, ordinal: int): nat { QueuePosition(ordinal, |boxes|) }

  /** The calendar still has a window of its own for this ordinal. */
  ghost predicate InHorizon(c: Campaign, ordinal: int)
    requires PlansFor(c.planner, c.boxes)
  {
    Place(c.boxes, ordinal) / c.planner.PerDay(BoxOf(c.boxes, ordinal)) < |c.planner.windows|
  }

  /**
   From selection to schedule: in a completed campaign whose calendar keeps the mailbox's spacing, any two
   messages of one mailbox are due at least that spacing apart.
   */
  lemma MailboxSpacing(c: Campaign, r: Runs, m: Render.Message, m': Render.Message)
    requires Completed(c, r) && m in r.messages && m' in r.messages
    requires m.mailbox == m'.mailbox && m.ordinal < m'.ordinal && InHorizon(c, m'.ordinal)
    requires CalendarSpaced(c.planner.windows, c.planner.PerDay(m.mailbox),
                            OwnPacing(c.planner, m.mailbox).minSpacingSeconds)
    ensures var due := Rendered(c, r).due;
            m.id in due && m'.id in due
            && due[m'.id] - due[m.id] >= OwnPacing(c.planner, m.mailbox).minSpacingSeconds as real
  {
    hide Completed, DuePlanner.DueAt, Ordered, Due, QueuePosition, DuePlanner.PerDay;
    assert PlansFor(c.planner, c.boxes) && DistinctBoxes(c.boxes) && Ordered(c.planner.windows) by { CalendarOf(c, r); }
    EveryCandidatePlannedOnce(c, r);
    var n := |c.boxes|;
    var box, box' := BoxIndex(c.boxes, m.ordinal), BoxIndex(c.boxes, m'.ordinal);
    assert box == box';
    var p, q := Place(c.boxes, m.ordinal), Place(c.boxes, m'.ordinal);
    PlacesDiffer(n, m.ordinal, m'.ordinal);
    var perDay := c.planner.PerDay(m.mailbox);
    var spacing := OwnPacing(c.planner, m.mailbox).minSpacingSeconds;
    assert perDay >= 1 by { PerDayPositive(c.planner, m.mailbox); }
    QuotientMonotone(p, q, perDay);
    assert Due(c.planner.windows, q, perDay, spacing, c.planner.hash(m'.id))
           - Due(c.planner.windows, p, perDay, spacing, c.planner.hash(m.id)) >= spacing as real;
    DueByPlace(c.planner, c.boxes, m);
    DueByPlace(c.planner, c.boxes, m');
  }

  /** The messages of one mailbox due in a half-open stretch of time. */
  ghost function DueBetween(c: Campaign, r: Runs, box: int, from: real, length: real): set<Render.Message> {
    var due := Rendered(c, r).due;
    set m | m in r.messages && m.mailbox == box && m.id in due && from <= due[m.id] < from + length
  }

  /** Whatever bound holds for places holds for the messages of a completed campaign, inside the horizon. */
  lemma MailboxHoldsAtMost(c: Campaign, r: Runs, box: int, from: real, length: real, n: nat)
    requires Completed(c, r) && c.planner.PerDay(box) >= 1
    requires HoldsAtMost(c.planner.windows, c.planner.PerDay(box), OwnPacing(c.planner, box).minSpacingSeconds, length,
             n)
    requires CalendarCovers(c, DueBetween(c, r, box, from, length))
    ensures |DueBetween(c, r, box, from, length)| <= n
  {
    hide Completed, DuePlanner.DueAt, Ordered, QueuePosition, DuePlanner.PerDay, Due, HoldsAtMost;
    assert PlansFor(c.planner, c.boxes) && DistinctBoxes(c.boxes) by { CalendarOf(c, r); }
    EveryCandidatePlannedOnce(c, r);
    var T := DueBetween(c, r, box, from, length);
    var pl := c.planner;
    assert OnOneBox(c.boxes, T, box);
    PlacesCount(c.boxes, T, box);
    var S := PlacesOf(c.boxes, T);
    var jitter: nat -> Fraction := (p: nat) => JitterAt(pl, c.boxes, T, p);
    forall p | p in S
      ensures p / pl.PerDay(box) < |pl.windows|
      ensures
        from <= Due(pl.windows, p, pl.PerDay(box), OwnPacing(pl, box).minSpacingSeconds, jitter(p)) < from + length
    {
      var m := MessageAt(c.boxes, T, p);
      DueByPlace(pl, c.boxes, m);
    }
    HeldBy(pl.windows, S, jitter, pl.PerDay(box), OwnPacing(pl, box).minSpacingSeconds, from, length, n);
  }

  lemma HeldBy(windows: seq<Window>, S: set<nat>, jitter: nat -> Fraction, perDay: int, spacing: nat, from: real,
        length: real, n: nat)
    requires perDay >= 1 && HoldsAtMost(windows, perDay, spacing, length, n)
    requires DueDuring(windows, S, jitter, perDay, spacing, from, length)
    ensures |S| <= n
  {
  }

  /** The calendar has windows of their own for all these messages. */
  ghost predicate CalendarCovers(c: Campaign, T: set<Render.Message>) {
    forall m | m in T :: PlansFor(c.planner, c.boxes) && InHorizon(c, m.ordinal)
  }

  /** The messages are on the mailbox that their ordinals pick, no two with one ordinal. */
  ghost predicate OnOneBox(boxes: seq<int>, T: set<Render.Message>, box: int) {
    && boxes != [] && DistinctBoxes(boxes)
    && (forall m | m in T :: m.ordinal >= 1 && m.mailbox == box == BoxOf(boxes, m.ordinal))
    && (forall m, m' | m in T && m' in T && m.ordinal == m'.ordinal :: m == m')
  }

  ghost function PlacesOf(boxes: seq<int>, T: set<Render.Message>): set<nat>
    requires boxes != []
  {
    set m | m in T :: Place(boxes, m.ordinal)
  }

  /** The message at a place. */
  ghost function MessageAt(boxes: seq<int>, T: set<Render.Message>, p: nat): (m: Render.Message)
    requires boxes != [] && p in PlacesOf(boxes, T)
    ensures m in T && Place(boxes, m.ordinal) == p
  {
    var m :| m in T && Place(boxes, m.ordinal) == p;
    m
  }

  ghost function JitterAt(pl: DuePlanner, boxes: seq<int>, T: set<Render.Message>, p: nat): Fraction
    requires boxes != []
  {
    if p in PlacesOf(boxes, T) then pl.hash(MessageAt(boxes, T, p).id) else 0.0
  }

  /** On one mailbox a place belongs to one message. */
  lemma {:induction false} PlacesCount(boxes: seq<int>, T: set<Render.Message>, box: int)
    requires OnOneBox(boxes, T, box)
    ensures |PlacesOf(boxes, T)| == |T|
    decreases |T|
  {
    hide QueuePosition, BoxOf, BoxIndex;
    var all := PlacesOf(boxes, T);
    if T == {} {
      assert all == {};
    } else {
      var x :| x in T;
      PlacesCount(boxes, T - {x}, box);
      var before := PlacesOf(boxes, T - {x});
      assert all == before + {Place(boxes, x.ordinal)};
      forall m | m in T - {x} ensures Place(boxes, m.ordinal) != Place(boxes, x.ordinal) {
        OtherPlace(boxes, m, x);
      }
    }
  }

  lemma OtherPlace(boxes: seq<int>, m: Render.Message, m': Render.Message)
    requires boxes != [] && DistinctBoxes(boxes) && m.ordinal >= 1 && m'.ordinal >= 1 && m.ordinal != m'.ordinal
    requires BoxOf(boxes, m.ordinal) == BoxOf(boxes, m'.ordinal)
    ensures Place(boxes, m.ordinal) != Place(boxes, m'.ordinal)
  {
    assert BoxIndex(boxes, m.ordinal) == BoxIndex(boxes, m'.ordinal);
    if m.ordinal < m'.ordinal {
      PlacesDiffer(|boxes|, m.ordinal, m'.ordinal);
    } else {
      PlacesDiffer(|boxes|, m'.ordinal, m.ordinal);
    }
  }

  /**
   The rolling cap over the whole pipeline: when the calendar keeps the same slots of neighbouring windows
   that long apart, no stretch of that length holds more than the daily number of one mailbox's messages.
   */
  lemma MailboxRollingDay(c: Campaign, r: Runs, box: int, from: real, length: real)
    requires Completed(c, r) && c.planner.PerDay(box) >= 1 && length > 0.0
    requires SameSlotsApart(c.planner.windows, c.planner.PerDay(box), OwnPacing(c.planner, box).minSpacingSeconds,
             length)
    requires CalendarCovers(c, DueBetween(c, r, box, from, length))
    ensures |DueBetween(c, r, box, from, length)| <= c.planner.PerDay(box) <= Max(1, OwnPacing(c.planner, box).dailyCap)
  {
    hide *;
    CalendarOf(c, r);
    RollingCapIff(c.planner.windows, c.planner.PerDay(box), OwnPacing(c.planner, box).minSpacingSeconds, length);
    MailboxHoldsAtMost(c, r, box, from, length, c.planner.PerDay(box));
    PerDayWithinOwnCap(c.planner, box);
  }

  lemma PerDayWithinOwnCap(pl: DuePlanner, box: int)
    ensures pl.PerDay(box) <= Max(1, OwnPacing(pl, box).dailyCap)
  {
  }

  lemma CalendarOf(c: Campaign, r: Runs)
    requires Completed(c, r)
    ensures PlansFor(c.planner, c.boxes) && DistinctBoxes(c.boxes) && Ordered(c.planner.windows)
  {
  }

  lemma PerDayPositive(pl: DuePlanner, box: int)
    ensures pl.PerDay(box) >= 1
  {
  }

  /** Two ordinals of one mailbox have places in the same order. */
  lemma PlacesDiffer(n: nat, o: int, o': int)
    requires n >= 1 && 1 <= o < o' && (o - 1) % n == (o' - 1) % n
    ensures QueuePosition(o, n) < QueuePosition(o', n)
  {
    DivBounds(o - 1, n);
    DivBounds(o' - 1, n);
    if QueuePosition(o', n) < QueuePosition(o, n) {
      MulStep(QueuePosition(o', n), QueuePosition(o, n), n);
    }
    RoundRobinBijection(n, (o - 1) % n, QueuePosition(o, n), o);
    RoundRobinBijection(n, (o' - 1) % n, QueuePosition(o', n), o');
  }

  lemma DueByPlace(pl: DuePlanner, boxes: seq<int>, m: Render.Message)
    requires PlansFor(pl, boxes) && pl.PerDay(m.mailbox) >= 1
    requires Place(boxes, m.ordinal) / pl.PerDay(m.mailbox) < |pl.windows|
    ensures pl.DueAt(m.mailbox, m.ordinal, m.id)
            == Success(Due(pl.windows, Place(boxes, m.ordinal), pl.PerDay(m.mailbox),
                           OwnPacing(pl, m.mailbox).minSpacingSeconds, pl.hash(m.id)))
  {
    hide DueInWindow, QueuePosition, PerMailboxDaily;
    DueIsPlanned(pl.windows, Place(boxes, m.ordinal), pl.PerDay(m.mailbox),
                 OwnPacing(pl, m.mailbox).minSpacingSeconds, pl.hash(m.id));
  }

  /** The messages due inside window `w`; `box` restricts them to one mailbox. */
  ghost function DueWithin(c: Campaign, r: Runs, w: nat, box: Option<int>): set<Render.Message>
    requires w < |c.planner.windows|
  {
    var due, window := Rendered(c, r).due, c.planner.windows[w];
    set m | m in r.messages && m.id in due && window.start <= due[m.id] < window.end
            && (box.Some? ==> m.mailbox == box.value)
  }

  /** When every window lasts a second, a time inside a window means that window was picked. */
  lemma WindowByTime(pl: DuePlanner, boxes: seq<int>, m: Render.Message, w: nat, at: real)
    requires PlansFor(pl, boxes) && Ordered(pl.windows) && w < |pl.windows| && m.mailbox == BoxOf(boxes, m.ordinal)
    requires forall v | v in pl.windows :: v.Length() >= 1.0
    requires pl.DueAt(m.mailbox, m.ordinal, m.id) == Success(at) && pl.windows[w].start <= at < pl.windows[w].end
    ensures WindowOf(pl, boxes, m.ordinal) == w
  {
    hide DuePlanner.DueAt;
    DueAtInItsWindow(pl, boxes, m.ordinal, m.id);
    hide WindowOf;
    var v := WindowOf(pl, boxes, m.ordinal);
    assert v < |pl.windows|;
    assert pl.windows[v] in pl.windows;
  }

  /**
   No window before the last is overfilled in a completed campaign: each mailbox has at most its share
   of messages due in it, which is at most its cap, and under a positive campaign limit all mailboxes
   together have at most `limit + n - 1`.
   */
  lemma WindowNotOverfilled(c: Campaign, r: Runs, w: nat)
    requires Completed(c, r) && w + 1 < |c.planner.windows|
    requires forall v | v in c.planner.windows :: v.Length() >= 1.0
    ensures forall k | 0 <= k < |c.boxes| ::
      |DueWithin(c, r, w, Some(c.boxes[k]))| <= Share(c.planner, c.boxes, k)
        <= Max(1, OwnPacing(c.planner, c.boxes[k]).dailyCap)
    ensures c.planner.campaignDailyLimit.Some? && c.planner.campaignDailyLimit.value > 0 ==>
      |DueWithin(c, r, w, None)| <= c.planner.campaignDailyLimit.value + |c.boxes| - 1
  {
    hide *;
    forall k | 0 <= k < |c.boxes|
      ensures |DueWithin(c, r, w, Some(c.boxes[k]))| <= Share(c.planner, c.boxes, k)
              <= Max(1, OwnPacing(c.planner, c.boxes[k]).dailyCap)
    {
      BoxNotOverfilled(c, r, w, k);
    }
    if c.planner.campaignDailyLimit.Some? && c.planner.campaignDailyLimit.value > 0 { CampaignNotOverfilled(c, r, w); }
  }

  lemma BoxNotOverfilled(c: Campaign, r: Runs, w: nat, k: nat)
    requires Completed(c, r) && w + 1 < |c.planner.windows| && k < |c.boxes|
    requires forall v | v in c.planner.windows :: v.Length() >= 1.0
    ensures |DueWithin(c, r, w, Some(c.boxes[k]))| <= Share(c.planner, c.boxes, k)
            <= Max(1, OwnPacing(c.planner, c.boxes[k]).dailyCap)
  {
    hide Completed, DuePlanner.DueAt, Ordered, WindowOf, Share;
    CalendarOf(c, r);
    EveryCandidatePlannedOnce(c, r);
    var S := set m | m in r.messages :: m.ordinal;
    BoxCapPerWindow(c.planner, c.boxes, S, k, w);
    var T := DueWithin(c, r, w, Some(c.boxes[k]));
    InjectiveOrdinals(T);
    forall m | m in T ensures m.ordinal in OfBox(c.planner, c.boxes, S, k, w) {
      WindowByTime(c.planner, c.boxes, m, w, Rendered(c, r).due[m.id]);
    }
    Render.SubsetSize(set m | m in T :: m.ordinal, OfBox(c.planner, c.boxes, S, k, w));
  }

  lemma CampaignNotOverfilled(c: Campaign, r: Runs, w: nat)
    requires Completed(c, r) && w + 1 < |c.planner.windows|
    requires forall v | v in c.planner.windows :: v.Length() >= 1.0
    requires c.planner.campaignDailyLimit.Some? && c.planner.campaignDailyLimit.value > 0
    ensures |DueWithin(c, r, w, None)| <= c.planner.campaignDailyLimit.value + |c.boxes| - 1
  {
    hide Completed, DuePlanner.DueAt, Ordered, WindowOf, Share;
    CalendarOf(c, r);
    EveryCandidatePlannedOnce(c, r);
    var S := set m | m in r.messages :: m.ordinal;
    WindowTotalBound(c.planner, c.boxes, S, w);
    var T := DueWithin(c, r, w, None);
    InjectiveOrdinals(T);
    forall m | m in T ensures m.ordinal in OfWindow(c.planner, c.boxes, S, w) {
      WindowByTime(c.planner, c.boxes, m, w, Rendered(c, r).due[m.id]);
    }
    Render.SubsetSize(set m | m in T :: m.ordinal, OfWindow(c.planner, c.boxes, S, w));
  }

  lemma {:induction false} InjectiveOrdinals(T: set<Render.Message>)
    requires forall m, m' | m in T && m' in T && m.ordinal == m'.ordinal :: m == m'
    ensures |set m | m in T :: m.ordinal| == |T|
    decreases |T|
  {
    var all := set m | m in T :: m.ordinal;
    if T == {} {
      assert all == {};
    } else {
      var x :| x in T;
      InjectiveOrdinals(T - {x});
      var before := set m | m in T - {x} :: m.ordinal;
      assert all == before + {x.ordinal};
    }
  }

  /**
   What a READY enrollment says about the selection: no candidate before the last accepted one was
   excluded or had no address, so the messages' ordinals are 1, 2, ..., up to the accepted count.
   */
  lemma ReadyMeansNobodyExcludedBefore(c: Campaign, r: Runs)
    requires Completed(c, r)
    ensures forall i: nat | i < |r.audience| :: i < |c.candidates| && AcceptedCandidate(c, r, i, r.audience[i])
  {
    hide Capture.Run, Capture.MemberOf, Enroll.Run, Render.Run, DuePlanner.DueAt;
    AudienceIsAcceptedCandidates(c, r);
    var g := EnrollSetting(c, r);
    if !Enroll.NoGap(r.audience) { Enroll.GapNeverReady(r.enroll, g); }
    Enroll.NoGapMeansContiguous(r.audience);
    forall i: nat | i < |r.audience| ensures i < |c.candidates| && AcceptedCandidate(c, r, i, r.audience[i]) {
      assert r.audience[i] in r.audience;
    }
  }
}
