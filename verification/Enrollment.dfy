/**
 Enrollment of an activation's audience in leased chunks (workers/campaigns.py,
 `enroll_activation_chunk`): every accepted member that is not suppressed gets one enrollment, on its
 round-robin mailbox, and one first message.

 Executions may overlap as in capture. Two things differ: nothing protects a finished job from a late
 execution, and `processed_count`, which stores the last ordinal, is checked against the number of
 accepted members.
 */
module Enrollment {
  import opened Wrappers
  import opened PlanningRows
  import Pacing

  /** Accepted members in ordinal order, as the keyset query reads them; the unique keys of the audience hold. */
  ghost predicate Audience(audience: seq<Member>) {
    && (forall i | 0 <= i < |audience| :: audience[i].ordinal >= 1 && audience[i].eligibility.Accepted?)
    && (forall i, j | 0 <= i < j < |audience| :: audience[i].ordinal < audience[j].ordinal)
    && (forall i, j | 0 <= i < j < |audience| :: !Clashes(audience[i], audience[j]))
  }

  /** One enrollment row; its lead identifies it within the campaign. */
  datatype Enrolled = Enrolled(lead: int, address: int, variables: map<string, string>, mailbox: int)

  /** The message of the first step of one enrollment. */
  datatype FirstMessage = FirstMessage(enrollment: int, address: int, mailbox: int)

  datatype PlanJob = PlanJob(state: JobState, after: Option<nat>, processed: nat, total: nat, lease: Option<Lease>)

  datatype Plan = Plan(job: PlanJob, enrollments: set<Enrolled>, messages: set<FirstMessage>)

  datatype Execution = Execution(owner: int, after: Option<nat>)

  predicate Claimable(job: PlanJob, owner: int, now: int) {
    CanClaim(job.state, job.lease, owner, now)
  }

  function Claimed(job: PlanJob, owner: int, now: int): PlanJob {
    job.(state := Processing, lease := Some(Lease(owner, now + LEASE_TTL_SECONDS)))
  }

  // ---- One chunk -----------------------------------------------------------------------------

  /** How many members come before the first one above `after`. */
  function CountUpTo(audience: seq<Member>, after: nat): (k: nat)
    ensures k <= |audience|
    ensures k < |audience| ==> audience[k].ordinal > after
    ensures forall i | 0 <= i < k :: audience[i].ordinal <= after
  {
    if audience == [] || audience[0].ordinal > after then 0 else 1 + CountUpTo(audience[1..], after)
  }

  /** At most `limit` members above the cursor, in ordinal order. */
  function Fetch(audience: seq<Member>, after: nat, limit: nat): seq<Member> {
    var k := CountUpTo(audience, after);
    audience[k..if k + limit < |audience| then k + limit else |audience|]
  }

  /** Round robin by ordinal. */
  function EnrollmentOf(m: Member, boxes: seq<int>): Enrolled
    requires boxes != []
  {
    Enrolled(m.lead, m.address, m.variables, boxes[(m.ordinal - 1) % |boxes|])
  }

  function EnrollableRows(members: seq<Member>, boxes: seq<int>, suppressed: set<int>): seq<Enrolled>
    requires boxes != []
  {
    if members == [] then []
    else
      var m := members[|members| - 1];
      EnrollableRows(members[..|members| - 1], boxes, suppressed) +
      if m.address in suppressed then [] else [EnrollmentOf(m, boxes)]
  }

  /** INSERT ... ON CONFLICT DO NOTHING: one enrollment per lead and per address in a campaign. */
  function InsertEnrollments(table: set<Enrolled>, rows: seq<Enrolled>): set<Enrolled> {
    if rows == [] then table
    else
      var before, r := InsertEnrollments(table, rows[..|rows| - 1]), rows[|rows| - 1];
      if exists t | t in before :: t.lead == r.lead || t.address == r.address then before else before + {r}
  }

  function MessageOf(e: Enrolled): FirstMessage {
    FirstMessage(e.lead, e.address, e.mailbox)
  }

  /** The first messages of the chunk's leads; one message per enrollment and step. */
  function InsertMessages(table: set<FirstMessage>, enrollments: set<Enrolled>, rows: seq<Enrolled>)
    : set<FirstMessage>
  {
    table + set e | e in enrollments && (exists r | r in rows :: r.lead == e.lead)
                    && (forall m | m in table :: m.enrollment != e.lead) :: MessageOf(e)
  }

  predicate NeedsMailbox(members: seq<Member>, suppressed: set<int>) {
    exists m | m in members :: m.address !in suppressed
  }

  function Failing(p: Plan): Plan { p.(job := p.job.(state := Failed)) }

  function NextAfter(members: seq<Member>, after: nat): int {
    if members == [] then after else members[|members| - 1].ordinal
  }

  function CommitChunk(p: Plan, e: Execution, audience: seq<Member>, boxes: seq<int>, suppressed: set<int>,
                       limit: nat, now: int): Plan
  {
    var after := if e.after.Some? then e.after.value else 0;
    var members := Fetch(audience, after, limit);
    if boxes == [] && NeedsMailbox(members, suppressed) then Failing(p)
    else
      var next := NextAfter(members, after);
      if next < 0 || next > p.job.total then Failing(p)  // the two checks on processed_count
      else
        var rows := if boxes == [] then [] else EnrollableRows(members, boxes, suppressed);
        var enrollments := InsertEnrollments(p.enrollments, rows);
        var messages := InsertMessages(p.messages, enrollments, rows);
        Plan(if |members| < limit then p.job.(state := Ready, processed := next)
             else p.job.(after := Some(next), processed := next,
               lease := Some(Lease(e.owner, now + LEASE_TTL_SECONDS))),
             enrollments, messages)
  }

  // ---- Runs ------------------------------------------------------------------------------------

  datatype Event =
    | Claim(process: int, owner: int)
    | Commit(process: int, suppressed: set<int>)
    | Crash(process: int)
    | Fail(process: int)
    | Tick(seconds: nat)

  /** What stays fixed during the activation: audience, active mailboxes in allocation order, chunk size. */
  datatype Setting = Setting(audience: seq<Member>, boxes: seq<int>, limit: nat)

  /** `seen` is history: the suppressed addresses each committed chunk read. */
  datatype State = State(plan: Plan, running: map<int, Execution>, now: int, seen: set<set<int>>)

  function Step(s: State, e: Event, g: Setting): State {
    match e
    case Claim(p, owner) =>
      if p in s.running || !Claimable(s.plan.job, owner, s.now) then s
      else s.(plan := s.plan.(job := Claimed(s.plan.job, owner, s.now)),
              running := s.running[p := Execution(owner, s.plan.job.after)])
    case Commit(p, suppressed) =>
      if p !in s.running then s
      else s.(plan := CommitChunk(s.plan, s.running[p], g.audience, g.boxes, suppressed, g.limit, s.now),
              running := s.running - {p}, seen := s.seen + {suppressed})
    case Crash(p) => s.(running := s.running - {p})
    case Fail(p) => if p !in s.running then s else s.(plan := Failing(s.plan), running := s.running - {p})
    case Tick(seconds) => s.(now := s.now + seconds)
  }

  function Run(s: State, events: seq<Event>, g: Setting): State {
    if events == [] then s else Step(Run(s, events[..|events| - 1], g), events[|events| - 1], g)
  }

  /** A job is created with the number of accepted members as its total. */
  function Start(g: Setting): State {
    State(Plan(PlanJob(Pending, None, 0, |g.audience|, None), {}, {}), map[], 0, {})
  }

  ghost predicate Sensible(g: Setting) {
    Audience(g.audience) && g.boxes != [] && g.limit >= 1
  }

  // ---- What every run keeps ------------------------------------------------------------------------

  /** The member is enrolled, or a committed chunk found it suppressed. */
  ghost predicate Handled(enrollments: set<Enrolled>, seen: set<set<int>>, m: Member, boxes: seq<int>)
    requires boxes != []
  {
    EnrollmentOf(m, boxes) in enrollments || exists sup | sup in seen :: m.address in sup
  }

  /** An enrollment is that of an accepted member some committed chunk found unsuppressed. */
  ghost predicate Faithful(e: Enrolled, seen: set<set<int>>, g: Setting)
    requires g.boxes != []
  {
    && (exists m | m in g.audience :: e == EnrollmentOf(m, g.boxes))
    && (exists sup | sup in seen :: e.address !in sup)
  }

  ghost predicate OneEach(enrollments: set<Enrolled>) {
    forall a, b | a in enrollments && b in enrollments && a != b :: a.lead != b.lead && a.address != b.address
  }

  /** Exactly one first message per enrollment. */
  ghost predicate Paired(p: Plan) {
    p.messages == set e | e in p.enrollments :: MessageOf(e)
  }

  ghost predicate TablesOk(p: Plan, seen: set<set<int>>, g: Setting)
    requires g.boxes != []
  {
    OneEach(p.enrollments) && Paired(p) && forall e | e in p.enrollments :: Faithful(e, seen, g)
  }

  ghost predicate HandledUpTo(p: Plan, seen: set<set<int>>, g: Setting, after: int)
    requires g.boxes != []
  {
    forall m | m in g.audience && m.ordinal <= after :: Handled(p.enrollments, seen, m, g.boxes)
  }

  ghost predicate CursorOk(after: Option<nat>, s: State, g: Setting)
    requires g.boxes != []
  {
    after.Some? ==> after.value <= s.plan.job.total && HandledUpTo(s.plan, s.seen, g, after.value)
  }

  ghost predicate Inv(s: State, g: Setting)
    requires g.boxes != []
  {
    && s.plan.job.total == |g.audience|
    && TablesOk(s.plan, s.seen, g)
    && CursorOk(s.plan.job.after, s, g)
    && (forall p | p in s.running :: CursorOk(s.running[p].after, s, g))
    && (s.plan.job.state.Ready? ==> forall m | m in g.audience :: Handled(s.plan.enrollments, s.seen, m, g.boxes))
  }

  lemma {:induction false} EnrollableRowsFacts(members: seq<Member>, boxes: seq<int>, suppressed: set<int>)
    requires boxes != []
    ensures forall m | m in members && m.address !in suppressed ::
            EnrollmentOf(m, boxes) in EnrollableRows(members, boxes, suppressed)
    ensures forall r | r in EnrollableRows(members, boxes, suppressed) ::
              exists m | m in members :: m.address !in suppressed && r == EnrollmentOf(m, boxes)
  {
    hide EnrollmentOf;
    if members != [] {
      var init, last := members[..|members| - 1], members[|members| - 1];
      assert members == init + [last];
      EnrollableRowsFacts(init, boxes, suppressed);
    }
  }

  lemma {:induction false} InsertEnrollmentsFacts(table: set<Enrolled>, rows: seq<Enrolled>)
    ensures table <= InsertEnrollments(table, rows)
    ensures OneEach(table) ==> OneEach(InsertEnrollments(table, rows))
    ensures forall e | e in InsertEnrollments(table, rows) :: e in table || e in rows
    ensures forall r | r in rows ::
              exists t | t in InsertEnrollments(table, rows) :: t.lead == r.lead || t.address == r.address
  {
    if rows != [] {
      var init, r := rows[..|rows| - 1], rows[|rows| - 1];
      assert rows == init + [r];
      InsertEnrollmentsFacts(table, init);
      var before, after := InsertEnrollments(table, init), InsertEnrollments(table, rows);
      forall x | x in rows ensures exists t | t in after :: t.lead == x.lead || t.address == x.address {
        if x in init {
          var t :| t in before && (t.lead == x.lead || t.address == x.address);
          assert t in after;
        }
      }
    }
  }

  /** Members that share a lead or an address are the same member. */
  lemma SameMember(audience: seq<Member>, a: Member, b: Member)
    requires Audience(audience) && a in audience && b in audience && Clashes(a, b)
    ensures a == b
  {
    var i :| 0 <= i < |audience| && audience[i] == a;
    var j :| 0 <= j < |audience| && audience[j] == b;
  }

  /** Enrolling a fetched batch keeps the tables right and handles every member of the batch. */
  lemma StoreBatch(p: Plan, seen: set<set<int>>, g: Setting, members: seq<Member>, suppressed: set<int>)
    requires Sensible(g) && suppressed in seen && TablesOk(p, seen, g)
    requires forall m | m in members :: m in g.audience
    ensures var rows := EnrollableRows(members, g.boxes, suppressed);
            var enrollments := InsertEnrollments(p.enrollments, rows);
            var messages := InsertMessages(p.messages, enrollments, rows);
            && p.enrollments <= enrollments
            && TablesOk(Plan(p.job, enrollments, messages), seen, g)
            && forall m | m in members :: Handled(enrollments, seen, m, g.boxes)
  {
    var rows := EnrollableRows(members, g.boxes, suppressed);
    EnrollableRowsFacts(members, g.boxes, suppressed);
    InsertEnrollmentsFacts(p.enrollments, rows);
    var enrollments := InsertEnrollments(p.enrollments, rows);
    forall e | e in enrollments ensures Faithful(e, seen, g) {
      if e in rows {
        var m :| m in members && m.address !in suppressed && e == EnrollmentOf(m, g.boxes);
        assert m in g.audience;
      }
    }
    MessagesPaired(p, enrollments, rows);
    forall m | m in members ensures Handled(enrollments, seen, m, g.boxes) {
      if m.address !in suppressed {
        var r := EnrollmentOf(m, g.boxes);
        var t :| t in enrollments && (t.lead == r.lead || t.address == r.address);
        assert Faithful(t, seen, g);
        var m' :| m' in g.audience && t == EnrollmentOf(m', g.boxes);
        SameMember(g.audience, m, m');
      }
    }
  }

  lemma MessagesPaired(p: Plan, enrollments: set<Enrolled>, rows: seq<Enrolled>)
    requires Paired(p) && p.enrollments <= enrollments && OneEach(enrollments)
    requires forall e | e in enrollments :: e in p.enrollments || e in rows
    ensures Paired(Plan(p.job, enrollments, InsertMessages(p.messages, enrollments, rows)))
  {
    var messages := InsertMessages(p.messages, enrollments, rows);
    forall e | e in enrollments ensures MessageOf(e) in messages {
      if e !in p.enrollments {
        forall m | m in p.messages ensures m.enrollment != e.lead {
          var o :| o in p.enrollments && m == MessageOf(o);
        }
      }
    }
  }

  lemma HandledStays(p: Plan, p': Plan, seen: set<set<int>>, seen': set<set<int>>, g: Setting, after: int)
    requires g.boxes != [] && p.enrollments <= p'.enrollments && seen <= seen'
    requires HandledUpTo(p, seen, g, after)
    ensures HandledUpTo(p', seen', g, after)
  {
    forall m | m in g.audience && m.ordinal <= after ensures Handled(p'.enrollments, seen', m, g.boxes) {
      assert Handled(p.enrollments, seen, m, g.boxes);
    }
  }

  /** Where a fetched chunk lies in the audience. */
  lemma FetchSlice(audience: seq<Member>, after: nat, limit: nat) returns (k: nat, hi: nat)
    requires Audience(audience) && limit >= 1
    ensures k == CountUpTo(audience, after) && k <= hi <= |audience|
    ensures Fetch(audience, after, limit) == audience[k..hi]
    ensures hi - k == limit || (hi - k < limit && hi == |audience|)
    ensures NextAfter(Fetch(audience, after, limit), after) == if k == hi then after else audience[hi - 1].ordinal
  {
    k := CountUpTo(audience, after);
    hi := if k + limit < |audience| then k + limit else |audience|;
  }

  /** A fetched chunk covers the audience from the old cursor to the new one. */
  lemma FetchCovers(audience: seq<Member>, after: nat, limit: nat)
    requires Audience(audience) && limit >= 1
    ensures var members := Fetch(audience, after, limit);
            var next := NextAfter(members, after);
            && next >= after
            && (forall m | m in members :: m in audience)
            && (forall m | m in audience && m.ordinal <= next :: m.ordinal <= after || m in members)
            && (|members| < limit ==> forall m | m in audience :: m.ordinal <= next)
            && (|members| == limit ==> next > after)
  {
    var k, hi := FetchSlice(audience, after, limit);
    hide Fetch, NextAfter, Clashes, CountUpTo;
    var members := Fetch(audience, after, limit);
    var next := NextAfter(members, after);
    forall i | 0 <= i < |audience| && audience[i].ordinal <= next
      ensures audience[i].ordinal <= after || audience[i] in members
    {
      if k <= i < hi { assert audience[k..hi][i - k] == audience[i]; }
    }
    forall i | 0 <= i < |audience| && |members| < limit ensures audience[i].ordinal <= next {}
  }

  lemma CommitKeepsInv(s: State, p: int, suppressed: set<int>, g: Setting)
    requires Sensible(g) && Inv(s, g) && p in s.running
    ensures Inv(Step(s, Commit(p, suppressed), g), g)
  {
    hide EnrollableRows, InsertEnrollments, InsertMessages, Fetch, Handled, Faithful, NextAfter, CountUpTo;
    var s' := Step(s, Commit(p, suppressed), g);
    var e := s.running[p];
    var after := if e.after.Some? then e.after.value else 0;
    var members := Fetch(g.audience, after, g.limit);
    FetchCovers(g.audience, after, g.limit);
    FaithfulStays(s, s', g);
    StoreBatch(s.plan, s'.seen, g, members, suppressed);
    CursorsStay(s, s', g);

    assert HandledUpTo(s'.plan, s'.seen, g, after);
  }

  lemma FaithfulStays(s: State, s': State, g: Setting)
    requires g.boxes != [] && TablesOk(s.plan, s.seen, g) && s.seen <= s'.seen
    ensures TablesOk(s.plan, s'.seen, g)
  {
    forall e | e in s.plan.enrollments ensures Faithful(e, s'.seen, g) {
      assert Faithful(e, s.seen, g);
    }
  }

  lemma CursorsStay(s: State, s': State, g: Setting)
    requires Sensible(g) && Inv(s, g) && s.seen <= s'.seen
    requires s.plan.enrollments <= s'.plan.enrollments && s'.plan.job.total == s.plan.job.total
    ensures CursorOk(s.plan.job.after, s', g)
    ensures forall p | p in s.running :: CursorOk(s.running[p].after, s', g)
    ensures s.plan.job.state.Ready? ==> forall m | m in g.audience :: Handled(s'.plan.enrollments, s'.seen, m, g.boxes)
  {
    if s.plan.job.after.Some? { HandledStays(s.plan, s'.plan, s.seen, s'.seen, g, s.plan.job.after.value); }
    forall p | p in s.running ensures CursorOk(s.running[p].after, s', g) {
      if s.running[p].after.Some? { HandledStays(s.plan, s'.plan, s.seen, s'.seen, g, s.running[p].after.value); }
    }
    if s.plan.job.state.Ready? {
      forall m | m in g.audience ensures Handled(s'.plan.enrollments, s'.seen, m, g.boxes) {
        assert Handled(s.plan.enrollments, s.seen, m, g.boxes);
      }
    }
  }

  lemma StepKeepsInv(s: State, e: Event, g: Setting)
    requires Sensible(g) && Inv(s, g)
    ensures Inv(Step(s, e, g), g)
  {
    if e.Commit? {
      if e.process in s.running { CommitKeepsInv(s, e.process, e.suppressed, g); }
    } else {
      hide HandledUpTo, Handled, Faithful;
      CursorsStay(s, Step(s, e, g), g);
    }
  }

  lemma {:induction false} RunKeepsInv(events: seq<Event>, g: Setting)
    requires Sensible(g)
    ensures Inv(Run(Start(g), events, g), g)
  {
    if events == [] {
      assert Paired(Start(g).plan);
    } else {
      var init := events[..|events| - 1];
      RunKeepsInv(init, g);
      StepKeepsInv(Run(Start(g), init, g), events[|events| - 1], g);
    }
  }

  // ---- Main results ------------------------------------------------------------------------------

  /**
   Every run, replays and overlaps included, with suppression changing between chunks: in every
   committed state each enrollment is some accepted member's, on mailbox `(ordinal - 1) mod n`, one
   per lead and per address, each with exactly one first message; members up to the cursor, and all
   members once the job is READY, are enrolled or were found suppressed.
   */
  lemma EnrollmentIsExact(events: seq<Event>, g: Setting)
    requires Sensible(g)
    ensures var s := Run(Start(g), events, g);
            && OneEach(s.plan.enrollments) && Paired(s.plan)
            && (forall e | e in s.plan.enrollments :: Faithful(e, s.seen, g))
            && (s.plan.job.after.Some? ==> HandledUpTo(s.plan, s.seen, g, s.plan.job.after.value))
            && (s.plan.job.state.Ready? ==>
              forall m | m in g.audience :: Handled(s.plan.enrollments, s.seen, m, g.boxes))
  {
    RunKeepsInv(events, g);
  }

  /** Members above the cursor: the measure a chunk that does not finish reduces by a whole batch. */
  function Above(audience: seq<Member>, after: nat): nat {
    |audience| - CountUpTo(audience, after)
  }

  lemma ChunkAdvances(audience: seq<Member>, after: nat, limit: nat)
    requires Audience(audience) && limit >= 1 && |Fetch(audience, after, limit)| == limit
    ensures var next := NextAfter(Fetch(audience, after, limit), after);
            next > after && Above(audience, next) == Above(audience, after) - limit
  {
    var k := CountUpTo(audience, after);
    var next: nat := NextAfter(Fetch(audience, after, limit), after);
    assert next == audience[k + limit - 1].ordinal;
    var k' := CountUpTo(audience, next);
    if k + limit < |audience| { assert audience[k + limit].ordinal > next; }
    if k' < k + limit { assert false; }
  }

  // ---- What is written, row by row -----------------------------------------------------------------------

  /** The enrollment of this member: its lead, address and frozen variables, on the mailbox its ordinal's turn gives. */
  ghost predicate EnrolledAs(e: Enrolled, m: Member, boxes: seq<int>) {
    && e.lead == m.lead && e.address == m.address && e.variables == m.variables
    && boxes != [] && e.mailbox == boxes[(m.ordinal - 1) % |boxes|]
  }

  ghost predicate IsFirstOf(f: FirstMessage, e: Enrolled) {
    f.enrollment == e.lead && f.address == e.address && f.mailbox == e.mailbox
  }

  /**
   Every run, in the words of the rows: an enrollment is an accepted member's whom a committed chunk found
   unsuppressed, the first messages are those of the enrollments, and a READY job left out only the suppressed.
   */
  lemma EnrolledAsCaptured(events: seq<Event>, g: Setting)
    requires Sensible(g)
    ensures var s := Run(Start(g), events, g);
            && (forall e | e in s.plan.enrollments ::
                  (exists m | m in g.audience :: EnrolledAs(e, m, g.boxes))
                  && exists suppressed | suppressed in s.seen :: e.address !in suppressed)
            && (forall f :: f in s.plan.messages <==> exists e | e in s.plan.enrollments :: IsFirstOf(f, e))
            && (s.plan.job.state.Ready? ==> forall m | m in g.audience ::
                  (exists e | e in s.plan.enrollments :: EnrolledAs(e, m, g.boxes))
                  || exists suppressed | suppressed in s.seen :: m.address in suppressed)
  {
    hide Run, OneEach, HandledUpTo;
    EnrollmentIsExact(events, g);
    var s := Run(Start(g), events, g);
    forall e | e in s.plan.enrollments
      ensures exists m | m in g.audience :: EnrolledAs(e, m, g.boxes)
      ensures exists suppressed | suppressed in s.seen :: e.address !in suppressed
    {
      assert Faithful(e, s.seen, g);
      var m :| m in g.audience && e == EnrollmentOf(m, g.boxes);
      assert EnrolledAs(e, m, g.boxes);
    }
    forall f ensures f in s.plan.messages <==> exists e | e in s.plan.enrollments :: IsFirstOf(f, e) {
      if e :| e in s.plan.enrollments && IsFirstOf(f, e) { assert f == MessageOf(e); }
      if f in s.plan.messages {
        var e :| e in s.plan.enrollments && f == MessageOf(e);
        assert IsFirstOf(f, e);
      }
    }
    if s.plan.job.state.Ready? {
      forall m | m in g.audience
        ensures (exists e | e in s.plan.enrollments :: EnrolledAs(e, m, g.boxes))
                || exists suppressed | suppressed in s.seen :: m.address in suppressed
      {
        assert Handled(s.plan.enrollments, s.seen, m, g.boxes);
        if EnrollmentOf(m, g.boxes) in s.plan.enrollments { assert EnrolledAs(EnrollmentOf(m, g.boxes), m, g.boxes); }
      }
    }
  }

  /** From `k` to `hi` are the next members above the cursor: a full chunk of them, or all that are left. */
  ghost predicate IsChunk(audience: seq<Member>, after: nat, limit: nat, k: nat, hi: nat) {
    && k <= hi <= |audience|
    && (forall i | 0 <= i < k :: audience[i].ordinal <= after)
    && (forall i | k <= i < |audience| :: audience[i].ordinal > after)
    && (hi - k == limit || (hi - k < limit && hi == |audience|))
  }

  lemma FetchIsChunk(audience: seq<Member>, after: nat, limit: nat) returns (k: nat, hi: nat)
    requires Audience(audience) && limit >= 1
    ensures IsChunk(audience, after, limit, k, hi) && Fetch(audience, after, limit) == audience[k..hi]
  {
    hide Clashes;
    k, hi := FetchSlice(audience, after, limit);
    forall i | k <= i < |audience| ensures audience[i].ordinal > after {
      assert audience[k].ordinal > after;
    }
  }

  /** The job after a chunk that ends at ordinal `next`: READY if it was short, else with a new cursor and lease. */
  ghost predicate Moved(job: PlanJob, job': PlanJob, next: int, short: bool, owner: int, now: int) {
    && job'.processed == next && job'.total == job.total
    && if short then job'.state == Ready && job'.after == job.after && job'.lease == job.lease
       else job'.state == job.state && job'.after == Some(next)
            && job'.lease == Some(Lease(owner, now + LEASE_TTL_SECONDS))
  }

  /** The chunk's members not suppressed now have an enrollment, theirs or one that took their lead or address. */
  ghost predicate NewEnrollments(before: set<Enrolled>, after: set<Enrolled>, chunk: seq<Member>, suppressed: set<int>,
                                 boxes: seq<int>)
  {
    && before <= after
    && (forall e | e in after && e !in before ::
          exists m | m in chunk :: m.address !in suppressed && EnrolledAs(e, m, boxes))
    && forall m | m in chunk && m.address !in suppressed ::
      exists e | e in after :: e.lead == m.lead || e.address == m.address
  }

  /** The enrollments of the chunk's leads have a first message each, and no others are new. */
  ghost predicate NewMessages(before: set<FirstMessage>, after: set<FirstMessage>, enrollments: set<Enrolled>,
                              chunk: seq<Member>, suppressed: set<int>)
  {
    && before <= after
    && (forall f | f in after && f !in before :: exists e | e in enrollments ::
          IsFirstOf(f, e) && exists m | m in chunk :: m.address !in suppressed && m.lead == e.lead)
    && forall e, m | e in enrollments && m in chunk && m.address !in suppressed && m.lead == e.lead ::
      exists f | f in after :: f.enrollment == e.lead
  }

  /**
   What a commit does, in any state: its execution ends, and either its chunk is stored and the job moves to the
   last ordinal read, or the job fails and nothing is stored. It fails exactly if somebody needs a mailbox and there
   is none, or if that ordinal is above the job's total.
   */
  lemma CommitGives(s: State, p: int, suppressed: set<int>, g: Setting)
    requires p in s.running && Audience(g.audience) && g.limit >= 1
    ensures var s' := Step(s, Commit(p, suppressed), g);
            var x := s.running[p];
            var after := if x.after.Some? then x.after.value else 0;
            && s'.running == s.running - {p} && s'.now == s.now && s'.seen == s.seen + {suppressed}
            && exists k: nat, hi: nat | IsChunk(g.audience, after, g.limit, k, hi) ::
                 var chunk := g.audience[k..hi];
                 var next := if k == hi then after else g.audience[hi - 1].ordinal;
                 if (g.boxes == [] && exists m | m in chunk :: m.address !in suppressed) || next > s.plan.job.total then
                   s'.plan == s.plan.(job := s.plan.job.(state := Failed))
                 else
                   && Moved(s.plan.job, s'.plan.job, next, hi - k < g.limit, x.owner, s.now)
                   && NewEnrollments(s.plan.enrollments, s'.plan.enrollments, chunk, suppressed, g.boxes)
                   && NewMessages(s.plan.messages, s'.plan.messages, s'.plan.enrollments, chunk, suppressed)
  {
    hide Fetch, EnrollableRows, InsertEnrollments, InsertMessages, NewEnrollments, NewMessages;
    var s', x := Step(s, Commit(p, suppressed), g), s.running[p];
    var after := if x.after.Some? then x.after.value else 0;
    var k, hi := FetchIsChunk(g.audience, after, g.limit);
    var chunk := g.audience[k..hi];
    assert k < hi ==> chunk[|chunk| - 1] == g.audience[hi - 1] && g.audience[hi - 1].ordinal > after;
    hide Audience, IsChunk;
    if g.boxes != [] || !NeedsMailbox(chunk, suppressed) {
      EnrollmentsAreStored(s.plan.enrollments, chunk, suppressed, g.boxes);
      MessagesAreStored(s.plan.messages, s'.plan.enrollments, chunk, suppressed, g.boxes);
    }
  }

  function ChunkRows(chunk: seq<Member>, suppressed: set<int>, boxes: seq<int>): seq<Enrolled> {
    if boxes == [] then [] else EnrollableRows(chunk, boxes, suppressed)
  }

  lemma ChunkRowsFacts(chunk: seq<Member>, suppressed: set<int>, boxes: seq<int>)
    requires boxes == [] ==> !NeedsMailbox(chunk, suppressed)
    ensures forall r | r in ChunkRows(chunk, suppressed, boxes) ::
              exists m | m in chunk :: m.address !in suppressed && EnrolledAs(r, m, boxes)
    ensures forall m | m in chunk && m.address !in suppressed ::
              exists r | r in ChunkRows(chunk, suppressed, boxes) :: EnrolledAs(r, m, boxes)
  {
    if boxes != [] {
      EnrollableRowsFacts(chunk, boxes, suppressed);
      forall m | m in chunk && m.address !in suppressed
        ensures exists r | r in ChunkRows(chunk, suppressed, boxes) :: EnrolledAs(r, m, boxes)
      {
        assert EnrolledAs(EnrollmentOf(m, boxes), m, boxes);
      }
      forall r | r in ChunkRows(chunk, suppressed, boxes)
        ensures exists m | m in chunk :: m.address !in suppressed && EnrolledAs(r, m, boxes)
      {
        var m :| m in chunk && m.address !in suppressed && r == EnrollmentOf(m, boxes);
        assert EnrolledAs(r, m, boxes);
      }
    }
  }

  lemma EnrollmentsAreStored(table: set<Enrolled>, chunk: seq<Member>, suppressed: set<int>, boxes: seq<int>)
    requires boxes == [] ==> !NeedsMailbox(chunk, suppressed)
    ensures var rows := ChunkRows(chunk, suppressed, boxes);
            NewEnrollments(table, InsertEnrollments(table, rows), chunk, suppressed, boxes)
  {
    hide ChunkRows, InsertEnrollments;
    var rows := ChunkRows(chunk, suppressed, boxes);
    ChunkRowsFacts(chunk, suppressed, boxes);
    InsertEnrollmentsFacts(table, rows);
    forall m | m in chunk && m.address !in suppressed
      ensures exists e | e in InsertEnrollments(table, rows) :: e.lead == m.lead || e.address == m.address
    {
      var r :| r in rows && EnrolledAs(r, m, boxes);
      var t :| t in InsertEnrollments(table, rows) && (t.lead == r.lead || t.address == r.address);
    }
  }

  lemma InsertMessagesFacts(table: set<FirstMessage>, enrollments: set<Enrolled>, rows: seq<Enrolled>)
    ensures var messages := InsertMessages(table, enrollments, rows);
            && table <= messages
            && (forall f | f in messages && f !in table :: exists e | e in enrollments ::
                  IsFirstOf(f, e) && exists r | r in rows :: r.lead == e.lead)
            && forall e, r | e in enrollments && r in rows && r.lead == e.lead ::
              exists f | f in messages :: f.enrollment == e.lead
  {
    var messages := InsertMessages(table, enrollments, rows);
    forall e, r | e in enrollments && r in rows && r.lead == e.lead
      ensures exists f | f in messages :: f.enrollment == e.lead
    {
      if forall f | f in table :: f.enrollment != e.lead { assert MessageOf(e) in messages; }
    }
  }

  lemma MessagesAreStored(table: set<FirstMessage>, enrollments: set<Enrolled>, chunk: seq<Member>,
                          suppressed: set<int>, boxes: seq<int>)
    requires boxes == [] ==> !NeedsMailbox(chunk, suppressed)
    ensures var rows := ChunkRows(chunk, suppressed, boxes);
            NewMessages(table, InsertMessages(table, enrollments, rows), enrollments, chunk, suppressed)
  {
    hide ChunkRows, InsertMessages, IsFirstOf;
    var rows := ChunkRows(chunk, suppressed, boxes);
    ChunkRowsFacts(chunk, suppressed, boxes);
    InsertMessagesFacts(table, enrollments, rows);
    var messages := InsertMessages(table, enrollments, rows);
    forall f | f in messages && f !in table
      ensures exists e | e in enrollments ::
                IsFirstOf(f, e) && exists m | m in chunk :: m.address !in suppressed && m.lead == e.lead
    {
      var e :| e in enrollments && IsFirstOf(f, e) && exists r | r in rows :: r.lead == e.lead;
      var r :| r in rows && r.lead == e.lead;
      var m :| m in chunk && m.address !in suppressed && EnrolledAs(r, m, boxes);
    }
    forall e, m | e in enrollments && m in chunk && m.address !in suppressed && m.lead == e.lead
      ensures exists f | f in messages :: f.enrollment == e.lead
    {
      var r :| r in rows && EnrolledAs(r, m, boxes);
    }
  }

  /** An execution that crashes ends without a trace; one that fails also fails the job; time only moves the clock. */
  lemma EndingsGive(s: State, p: int, seconds: nat, g: Setting)
    requires p in s.running
    ensures Step(s, Crash(p), g) == s.(running := s.running - {p})
    ensures Step(s, Fail(p), g)
            == s.(running := s.running - {p}, plan := s.plan.(job := s.plan.job.(state := Failed)))
    ensures Step(s, Tick(seconds), g) == s.(now := s.now + seconds)
  {
  }

  // ---- Lease exclusion ---------------------------------------------------------------------------------

  /** What an event does to the lease: an execution starts, or a running one leaves a lease of its own behind. */
  ghost function MarkOf(s: State, e: Event, g: Setting): seq<Mark> {
    if e.Claim? && e.process !in s.running && e.process in Step(s, e, g).running then [Taken(e.owner, s.now)]
    else if e.Commit? && e.process in s.running
            && Step(s, e, g).plan.job.lease == Some(Lease(s.running[e.process].owner, s.now + LEASE_TTL_SECONDS))
    then [Renewed(s.running[e.process].owner, s.now)]
    else []
  }

  ghost function Marks(events: seq<Event>, g: Setting): seq<Mark> {
    if events == [] then []
    else
      var init := events[..|events| - 1];
      Marks(init, g) + MarkOf(Run(Start(g), init, g), events[|events| - 1], g)
  }

  lemma LeaseStep(s: State, e: Event, g: Setting)
    ensures var mark, lease := MarkOf(s, e, g), Step(s, e, g).plan.job.lease;
            && |mark| <= 1 && (mark == [] ==> lease == s.plan.job.lease)
            && (mark != [] ==> lease == Some(Lease(mark[0].owner, mark[0].at + LEASE_TTL_SECONDS)))
            && (mark != [] && mark[0].Taken? ==>
              CanClaim(s.plan.job.state, s.plan.job.lease, mark[0].owner, mark[0].at))
  {
  }

  /**
   Leases exclude, over every run: the stored lease is the one set last, and an execution of another owner
   starts only when its lifetime is over, counted from the claim or the progress that set it.
   */
  lemma {:induction false} LeaseExcludes(events: seq<Event>, g: Setting)
    ensures Exclusion(Marks(events, g))
    ensures Run(Start(g), events, g).plan.job.lease == LeaseOf(Marks(events, g))
  {
    hide Step, MarkOf, Exclusion, LeaseOf, Free;
    if events == [] {
      NoMarksYet();
    } else {
      var init, e := events[..|events| - 1], events[|events| - 1];
      LeaseExcludes(init, g);
      var s, marks := Run(Start(g), init, g), Marks(init, g);
      LeaseStep(s, e, g);
      var mark := MarkOf(s, e, g);
      if mark == [] {
        assert marks + mark == marks;
      } else {
        FreeMeansNoLiveLease(marks, mark[0].owner, mark[0].at);
        OneMoreMark(marks, mark[0]);
        assert mark == [mark[0]];
      }
    }
  }

  /**
   Exactly when a claim takes the job, after any run: when it is unfinished and free for this owner. It then hands
   out what is stored and takes the lease; otherwise nothing happens. A READY or FAILED job is never taken.
   */
  lemma ClaimStartsIff(events: seq<Event>, p: int, owner: int, g: Setting)
    requires p !in Run(Start(g), events, g).running
    ensures var s := Run(Start(g), events, g);
            var s' := Step(s, Claim(p, owner), g);
            && (p in s'.running <==>
                  (s.plan.job.state.Pending? || s.plan.job.state.Processing?) && Free(Marks(events, g), owner, s.now))
            && (p !in s'.running ==> s' == s)
            && (p in s'.running ==>
                  && s'.running == s.running[p := Execution(owner, s.plan.job.after)] && s'.plan.job.state.Processing?
                  && s'.plan.job.lease == Some(Lease(owner, s.now + LEASE_TTL_SECONDS)) && s'.now == s.now
                  && s'.plan.job.after == s.plan.job.after && s'.plan.job.processed == s.plan.job.processed
                    && s'.plan.job.total == s.plan.job.total
                  && s'.plan.enrollments == s.plan.enrollments && s'.plan.messages == s.plan.messages
                    && s'.seen == s.seen)
  {
    hide Run, Marks, Exclusion, Free, LeaseOf;
    LeaseExcludes(events, g);
    FreeMeansNoLiveLease(Marks(events, g), owner, Run(Start(g), events, g).now);
  }

  // ---- Which audiences can be enrolled at all ------------------------------------------------------

  /** No candidate before the last accepted one was excluded or dropped: the last ordinal is the count. */
  predicate NoGap(audience: seq<Member>) {
    audience == [] || audience[|audience| - 1].ordinal <= |audience|
  }

  lemma {:induction false} OrdinalAtLeastPlace(audience: seq<Member>, i: nat)
    requires Audience(audience) && i < |audience|
    ensures audience[i].ordinal >= i + 1
  {
    if i > 0 { OrdinalAtLeastPlace(audience, i - 1); }
  }

  /** `NoGap` means the accepted ordinals are exactly 1, 2, ..., n. */
  lemma NoGapMeansContiguous(audience: seq<Member>)
    requires Audience(audience)
    ensures NoGap(audience) <==> forall i | 0 <= i < |audience| :: audience[i].ordinal == i + 1
  {
    var n := |audience|;
    if NoGap(audience) {
      forall i | 0 <= i < n ensures audience[i].ordinal == i + 1 {
        OrdinalAtLeastPlace(audience, i);
        RoomAbove(audience, i);
      }
    }
  }

  lemma {:induction false} RoomAbove(audience: seq<Member>, i: nat)
    requires Audience(audience) && i < |audience|
    ensures audience[i].ordinal + (|audience| - 1 - i) <= audience[|audience| - 1].ordinal
    decreases |audience| - i
  {
    if i + 1 < |audience| { RoomAbove(audience, i + 1); }
  }

  /** With a gap every chunk that would finish is refused by the count check, so the job never becomes READY. */
  lemma {:induction false} GapNeverReady(events: seq<Event>, g: Setting)
    requires Sensible(g) && !NoGap(g.audience)
    ensures !Run(Start(g), events, g).plan.job.state.Ready?
  {
    if events != [] {
      var init, e := events[..|events| - 1], events[|events| - 1];
      var s := Run(Start(g), init, g);
      GapNeverReady(init, g);
      RunKeepsInv(init, g);
      if e.Commit? && e.process in s.running {
        GapCommitNotReady(s, e.process, e.suppressed, g);
      }
    }
  }

  lemma GapCommitNotReady(s: State, p: int, suppressed: set<int>, g: Setting)
    requires Sensible(g) && !NoGap(g.audience) && Inv(s, g) && p in s.running && !s.plan.job.state.Ready?
    ensures !Step(s, Commit(p, suppressed), g).plan.job.state.Ready?
  {
    hide EnrollableRows, InsertEnrollments, InsertMessages, Fetch, NextAfter, CountUpTo;
    var after := if s.running[p].after.Some? then s.running[p].after.value else 0;
    FetchCovers(g.audience, after, g.limit);
    assert g.audience[|g.audience| - 1] in g.audience;
  }

  ghost predicate NoFailures(events: seq<Event>) { forall e | e in events :: !e.Fail? }

  /** Without a gap no chunk is refused: only an execution that itself fails can fail the job. */
  lemma {:induction false} NoGapNeverFails(events: seq<Event>, g: Setting)
    requires Sensible(g) && NoGap(g.audience) && NoFailures(events)
    ensures !Run(Start(g), events, g).plan.job.state.Failed?
  {
    if events != [] {
      var init, e := events[..|events| - 1], events[|events| - 1];
      var s := Run(Start(g), init, g);
      NoGapNeverFails(init, g);
      RunKeepsInv(init, g);
      if e.Commit? && e.process in s.running {
        var after := if s.running[e.process].after.Some? then s.running[e.process].after.value else 0;
        NoGapWithinTotal(g.audience, after, g.limit);
      }
    }
  }

  lemma NoGapWithinTotal(audience: seq<Member>, after: nat, limit: nat)
    requires Audience(audience) && NoGap(audience) && limit >= 1 && after <= |audience|
    ensures 0 <= NextAfter(Fetch(audience, after, limit), after) <= |audience|
  {
    NoGapMeansContiguous(audience);
  }

  /** Worker 0 can claim, and whatever other executions are alive keep still. */
  ghost predicate Open(s: State) {
    && 0 !in s.running && (s.plan.job.state.Pending? || s.plan.job.state.Processing?)
    && CanClaim(s.plan.job.state, s.plan.job.lease, 0, s.now)
  }

  /** Where the stored cursor stands. */
  function After(job: PlanJob): nat { if job.after.Some? then job.after.value else 0 }

  /** One worker, undisturbed: claim and commit until nothing is left. Other executions stay where they are. */
  lemma {:induction false} UndisturbedFinishes(events: seq<Event>, g: Setting) returns (rest: seq<Event>)
    requires Sensible(g) && NoGap(g.audience) && Open(Run(Start(g), events, g))
    ensures var s, s' := Run(Start(g), events, g), Run(Start(g), events + rest, g);
            s'.plan.job.state.Ready? && s'.running == s.running
    decreases Above(g.audience, After(Run(Start(g), events, g).plan.job))
  {
    hide EnrollableRows, InsertEnrollments, InsertMessages, Fetch, NextAfter, CountUpTo, Above;
    var s := Run(Start(g), events, g);
    RunKeepsInv(events, g);
    var after := After(s.plan.job);
    var two := [Claim(0, 0), Commit(0, {})];
    assert (events + two)[..|events| + 1] == events + [Claim(0, 0)] && (events + [Claim(0, 0)])[..|events|] == events;
    var s1 := Run(Start(g), events + [Claim(0, 0)], g);
    assert s1 == Step(s, Claim(0, 0), g);
    var s2 := Run(Start(g), events + two, g);
    assert s2 == Step(s1, Commit(0, {}), g);
    assert s2.running == s.running;
    NoGapWithinTotal(g.audience, after, g.limit);
    FetchSize(g.audience, after, g.limit);
    if s2.plan.job.state.Ready? {
      rest := two;
    } else {
      ChunkAdvances(g.audience, after, g.limit);
      var more := UndisturbedFinishes(events + two, g);
      rest := two + more;
      assert events + rest == events + two + more;
    }
  }

  lemma FetchSize(audience: seq<Member>, after: nat, limit: nat)
    ensures |Fetch(audience, after, limit)| <= limit
  {
  }

  /** Some run enrolls this audience to the end. */
  ghost predicate CanFinish(g: Setting) {
    exists events :: Run(Start(g), events, g).plan.job.state.Ready?
  }

  /**
   Exactly which audiences can be enrolled: those without a gap. An activation whose audience has one
   excluded or address-less candidate before its last accepted one can never finish enrolling,
   because its last ordinal exceeds the total the job was created with.
   */
  lemma CanFinishIff(g: Setting)
    requires Sensible(g)
    ensures CanFinish(g) <==> NoGap(g.audience)
  {
    if NoGap(g.audience) {
      assert Run(Start(g), [], g) == Start(g);
      var rest := UndisturbedFinishes([], g);
      assert [] + rest == rest;
    } else {
      forall events ensures !Run(Start(g), events, g).plan.job.state.Ready? { GapNeverReady(events, g); }
    }
  }

  /** The smallest such audience: the first of two candidates is archived, the second accepted. */
  lemma ExcludedFirstCandidateBlocksEnrollment()
    ensures var g := Setting([Member(2, 20, 2, 1, map[], Accepted)], [7], BATCH_SIZE);
            Sensible(g) && !CanFinish(g)
  {
    var g := Setting([Member(2, 20, 2, 1, map[], Accepted)], [7], BATCH_SIZE);
    CanFinishIff(g);
  }

  // ---- When READY is final -------------------------------------------------------------------------

  lemma {:induction false} NobodyRunning(s: State, events: seq<Event>, g: Setting)
    requires s.plan.job.state.Ready? && s.running == map[]
    ensures Run(s, events, g).plan == s.plan && Run(s, events, g).running == map[]
  {
    hide CommitChunk;
    if events != [] { NobodyRunning(s, events[..|events| - 1], g); }
  }

  lemma OneStep(s: State, e: Event, g: Setting)
    ensures Run(s, [e], g) == Step(s, e, g)
  {
    assert [e][..0] == [] && Run(s, [], g) == s;
  }

  lemma SomeExecution(running: map<int, Execution>) returns (p: int)
    requires running != map[]
    ensures p in running
  {
    assert (forall q :: q !in running) ==> running == map[];
    p :| p in running;
  }

  /** Exactly when READY is final: when no execution is left alive. Nothing else protects a finished job. */
  lemma ReadyIsFinalIff(s: State, g: Setting)
    requires s.plan.job.state.Ready?
    ensures (forall events :: Run(s, events, g).plan.job.state.Ready?) <==> s.running == map[]
  {
    if s.running == map[] {
      forall events ensures Run(s, events, g).plan.job.state.Ready? { NobodyRunning(s, events, g); }
    } else {
      var p := SomeExecution(s.running);
      OneStep(s, Fail(p), g);
      assert !Run(s, [Fail(p)], g).plan.job.state.Ready?;
    }
  }

  /**
   And such executions are reachable for every audience that can be enrolled: one outlives its lease while
   another enrolls everybody, then fails, and the READY job is FAILED.
   */
  lemma LateFailureUndoesReady(g: Setting) returns (events: seq<Event>)
    requires Sensible(g) && NoGap(g.audience)
    ensures var s := Run(Start(g), events, g);
            && s.plan.job.state.Ready? && 1 in s.running
            && Run(Start(g), events + [Fail(1)], g).plan.job.state.Failed?
            && Run(Start(g), events + [Fail(1)], g).plan.enrollments == s.plan.enrollments
  {
    var slow := [Claim(1, 1), Tick(LEASE_TTL_SECONDS + 1)];
    assert slow[..1] == [Claim(1, 1)];
    OneStep(Start(g), Claim(1, 1), g);
    var s := Run(Start(g), slow, g);
    assert s == Step(Run(Start(g), slow[..1], g), slow[1], g);
    var rest := UndisturbedFinishes(slow, g);
    events := slow + rest;
    assert (events + [Fail(1)])[..|events|] == events;
  }

  // ---- The worker --------------------------------------------------------------------------------

  class EnrollTask {
    var job: PlanJob
    var enrollments: set<Enrolled>
    var messages: set<FirstMessage>

    function Snapshot(): Plan
      reads this
    {
      Plan(job, enrollments, messages)
    }

    constructor (total: nat)
      ensures Snapshot() == Plan(PlanJob(Pending, None, 0, total, None), {}, {})
    {
      job, enrollments, messages := PlanJob(Pending, None, 0, total, None), {}, {};
    }

    method ClaimJob(owner: int, now: int) returns (e: Option<Execution>)
      modifies this
      ensures e.Some? <==>
                (old(job).state.Pending? || old(job).state.Processing?)
                && (old(job).lease.None? || old(job).lease.value.expires < now || old(job).lease.value.owner == owner)
      ensures e.Some? ==> e.value == Execution(owner, old(job).after)
                          && Snapshot() == old(Snapshot()).(job := Claimed(old(job), owner, now))
      ensures e.None? ==> Snapshot() == old(Snapshot())
    {
      if !Claimable(job, owner, now) { return None; }
      e := Some(Execution(owner, job.after));
      job := Claimed(job, owner, now);
    }

    /** The rows to enroll; a member that needs a mailbox when there is none raises. */
    method BuildRows(members: seq<Member>, boxes: seq<int>,
          suppressed: set<int>) returns (rows: Result<seq<Enrolled>, string>)
      ensures rows.Failure? <==> boxes == [] && NeedsMailbox(members, suppressed)
      ensures rows.Success? ==>
                rows.value == if boxes == [] then [] else EnrollableRows(members, boxes, suppressed)
    {
      var built: seq<Enrolled> := [];
      for i := 0 to |members|
        invariant boxes == [] ==> built == [] && forall k | 0 <= k < i :: members[k].address in suppressed
        invariant boxes != [] ==> built == EnrollableRows(members[..i], boxes, suppressed)
      {
        assert members[..i + 1][..i] == members[..i];
        if members[i].address !in suppressed {
          var mailbox := Pacing.AssignMailbox(boxes, members[i].ordinal);
          if mailbox.Failure? { return Failure(mailbox.error); }
          built := built + [Enrolled(members[i].lead, members[i].address, members[i].variables, mailbox.value)];
        }
      }
      assert members[..|members|] == members;
      return Success(built);
    }

    method InsertRows(rows: seq<Enrolled>)
      modifies this`enrollments
      ensures enrollments == InsertEnrollments(old(enrollments), rows)
    {
      for k := 0 to |rows|
        invariant enrollments == InsertEnrollments(old(enrollments), rows[..k])
      {
        assert rows[..k + 1][..k] == rows[..k];
        if !exists t | t in enrollments :: t.lead == rows[k].lead || t.address == rows[k].address {
          enrollments := enrollments + {rows[k]};
        }
      }
      assert rows[..|rows|] == rows;
    }

    /** One chunk of an execution that holds a claim. */
    method EnrollChunk(e: Execution, audience: seq<Member>, boxes: seq<int>, suppressed: set<int>, limit: nat, now: int)
      modifies this
      ensures Snapshot() == CommitChunk(old(Snapshot()), e, audience, boxes, suppressed, limit, now)
    {
      var after := if e.after.Some? then e.after.value else 0;
      var members := Fetch(audience, after, limit);
      var rows := BuildRows(members, boxes, suppressed);
      var next := NextAfter(members, after);
      if rows.Failure? || next < 0 || next > job.total {  // rolled back, then recorded as failed
        job := job.(state := Failed);
        return;
      }
      InsertRows(rows.value);
      messages := InsertMessages(messages, enrollments, rows.value);
      if |members| < limit {
        job := job.(state := Ready, processed := next);
      } else {
        job := job.(after := Some(next), processed := next, lease := Some(Lease(e.owner, now + LEASE_TTL_SECONDS)));
      }
    }
  }
}
