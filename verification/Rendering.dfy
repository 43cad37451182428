/**
 Rendering and scheduling of first messages in chunks (workers/campaigns.py,
 `render_messages_chunk`): there is no cursor, a chunk takes the first messages not yet handled and
 not locked by another execution, and writes each one's planned time.

 A message is handled once it has a due time: SCHEDULED in a standard campaign, given a generation
 job in a hyper-personalized one. Content is not modelled.
 */
module Rendering {
  import opened Wrappers
  import opened PlanningRows

  /** What a chunk's planner answers for mailbox, ordinal and message id: `DuePlanner.DueAt` of its inputs. */
  type Planner = (int, int, int) -> Result<real, string>

  /** The planner has a time for every message: its calendar has a window. */
  ghost predicate Answers(planner: Planner) {
    forall mailbox, ordinal, id :: planner(mailbox, ordinal, id).Success?
  }

  /** A first message, with what the query joins to it. */
  datatype Message = Message(id: int, mailbox: int, ordinal: int)

  datatype RenderJob = RenderJob(state: JobState, processed: nat, total: nat, lease: Option<Lease>)

  /**
   The campaign's messages in id order, fixed while it renders. `total` is the number of accepted
   members, which suppressed members keep above the messages.
   */
  datatype Setting = Setting(messages: seq<Message>, total: nat, limit: nat)

  /**
   An execution: `processed` is the count it read with its claim; after its fetch it holds locks on
   `rows`. `skipped` is history: the unhandled messages the fetch passed over as locked by others.
   */
  datatype Execution = Claimed(owner: int, processed: nat)
                     | Fetched(owner: int, processed: nat, rows: seq<Message>, skipped: set<int>)

  /** `planners` is history: the planner each committed chunk worked with. */
  datatype State = State(job: RenderJob, due: map<int, real>, running: map<int, Execution>, now: int,
        planners: seq<Planner>)

  datatype Event =
    | Claim(process: int, owner: int)
    | Fetch(process: int)
    | Commit(process: int, planner: Planner)
    | Crash(process: int)
    | Fail(process: int)
    | Tick(seconds: nat)

  // ---- One chunk ---------------------------------------------------------------------------------

  ghost function Ids(rows: seq<Message>): set<int> {
    set m | m in rows :: m.id
  }

  ghost function LockedBy(e: Execution): set<int> {
    if e.Fetched? then Ids(e.rows) else {}
  }

  /** Messages locked by executions other than `p`. */
  ghost function Locked(running: map<int, Execution>, p: int): set<int> {
    set q, id | q in running && q != p && id in LockedBy(running[q]) :: id
  }

  function Unhandled(messages: seq<Message>, due: map<int, real>, locked: set<int>): (r: seq<Message>)
    ensures forall m :: m in r <==> m in messages && m.id !in due && m.id !in locked
    ensures |r| <= |messages|
  {
    if messages == [] then []
    else
      var rest := Unhandled(messages[1..], due, locked);
      if messages[0].id in due || messages[0].id in locked then rest else [messages[0]] + rest
  }

  function Take(rows: seq<Message>, limit: nat): seq<Message> {
    rows[..if limit < |rows| then limit else |rows|]
  }

  /** The times the planner gives, row by row; an empty calendar raises. */
  function PlanRows(due: map<int, real>, rows: seq<Message>, planner: Planner): Result<map<int, real>, string> {
    if rows == [] then Success(due)
    else
      var before, m := PlanRows(due, rows[..|rows| - 1], planner), rows[|rows| - 1];
      if before.Failure? then before
      else
        var at := planner(m.mailbox, m.ordinal, m.id);
        if at.Failure? then Failure(at.error)
        else Success(if m.id in before.value then before.value else before.value[m.id := at.value])
  }

  function Failing(job: RenderJob): RenderJob { job.(state := Failed) }

  /** The job row after a chunk of `count` rows; the count check refuses more than the total. */
  function JobAfter(job: RenderJob, e: Execution, count: nat, limit: nat, now: int): Option<RenderJob> {
    var processed := e.processed + count;
    if processed > job.total then None
    else if count < limit then Some(job.(state := Ready, processed := processed))
    else Some(job.(processed := processed, lease := Some(Lease(e.owner, now + LEASE_TTL_SECONDS))))
  }

  ghost function Step(s: State, e: Event, g: Setting): State {
    match e
    case Claim(p, owner) =>
      if p in s.running || !CanClaim(s.job.state, s.job.lease, owner, s.now) then s
      else s.(job := s.job.(state := Processing, lease := Some(Lease(owner, s.now + LEASE_TTL_SECONDS))),
              running := s.running[p := Claimed(owner, s.job.processed)])
    case Fetch(p) =>
      if p !in s.running || !s.running[p].Claimed? then s
      else
        var locked := Locked(s.running, p);
        s.(running := s.running[p := Fetched(s.running[p].owner, s.running[p].processed,
                                             Take(Unhandled(g.messages, s.due, locked), g.limit),
                                             locked - s.due.Keys)])
    case Commit(p, planner) =>
      if p !in s.running || !s.running[p].Fetched? then s
      else
        var x := s.running[p];
        var due := PlanRows(s.due, x.rows, planner);
        var job := JobAfter(s.job, x, |x.rows|, g.limit, s.now);
        if due.Failure? || job.None? then s.(job := Failing(s.job), running := s.running - {p})
        else s.(job := job.value, due := due.value, running := s.running - {p}, planners := s.planners + [planner])
    case Crash(p) => s.(running := s.running - {p})
    case Fail(p) => if p !in s.running then s else s.(job := Failing(s.job), running := s.running - {p})
    case Tick(seconds) => s.(now := s.now + seconds)
  }

  ghost function Run(s: State, events: seq<Event>, g: Setting): State {
    if events == [] then s else Step(Run(s, events[..|events| - 1], g), events[|events| - 1], g)
  }

  function Start(g: Setting): State {
    State(RenderJob(Pending, 0, g.total, None), map[], map[], 0, [])
  }

  ghost predicate DistinctIds(messages: seq<Message>) {
    forall i, j | 0 <= i < j < |messages| :: messages[i].id != messages[j].id
  }

  ghost predicate Sensible(g: Setting) {
    DistinctIds(g.messages) && |g.messages| <= g.total && g.limit >= 1
  }

  /** Messages still to plan. */
  function Remaining(s: State, g: Setting): seq<Message> {
    Unhandled(g.messages, s.due, {})
  }

  // ---- What every run keeps, overlaps included -----------------------------------------------------

  /** One of these planners gives the message this time. */
  ghost predicate GivenBy(m: Message, planners: seq<Planner>, at: real) {
    exists i | 0 <= i < |planners| :: planners[i](m.mailbox, m.ordinal, m.id) == Success(at)
  }

  /** The message with this id exists, and one of the planners gives it this time. */
  ghost predicate IsPlanned(g: Setting, planners: seq<Planner>, id: int, at: real) {
    exists m | m in g.messages :: m.id == id && GivenBy(m, planners, at)
  }

  /** Every time written is one a committed chunk's planner gave that message. */
  ghost predicate DueOk(due: map<int, real>, g: Setting, planners: seq<Planner>) {
    forall id | id in due :: IsPlanned(g, planners, id, due[id])
  }

  /**
   An execution's rows are unhandled messages nobody else holds, and a short fetch took everything
   that was not locked: whatever is still unhandled is its own or was skipped.
   */
  ghost predicate ExecutionOk(s: State, g: Setting, p: int)
    requires p in s.running
  {
    var x := s.running[p];
    x.Fetched? ==>
      && |x.rows| <= g.limit && DistinctIds(x.rows)
      && (forall m | m in x.rows :: m in g.messages && m.id !in s.due && m.id !in Locked(s.running, p))
      && (|x.rows| < g.limit ==> forall m | m in Remaining(s, g) :: m in x.rows || m.id in x.skipped)
  }

  ghost predicate Inv(s: State, g: Setting) {
    && s.job.total == g.total
    && DueOk(s.due, g, s.planners)
    && forall p | p in s.running :: ExecutionOk(s, g, p)
  }

  lemma {:induction false} PlanRowsFacts(due: map<int, real>, rows: seq<Message>, planner: Planner, g: Setting,
        planners: seq<Planner>)
    requires PlanRows(due, rows, planner).Success? && DueOk(due, g, planners)
    requires forall m | m in rows :: m in g.messages
    ensures var due' := PlanRows(due, rows, planner).value;
            && DueOk(due', g, planners + [planner]) && due'.Keys == due.Keys + Ids(rows)
            && forall id | id in due :: due'[id] == due[id]
  {
    hide *;
    if rows == [] {
      NoRows(due, planner);
      PlannersGrow(due, g, planners, planner);
    } else {
      var init, last := rows[..|rows| - 1], rows[|rows| - 1];
      assert rows == init + [last];
      LastRow(due, rows, planner);
      PlanRowsFacts(due, init, planner, g, planners);
      IdsOfLast(init, last);
      OneMoreDue(PlanRows(due, init, planner).value, last, planner(last.mailbox, last.ordinal, last.id).value, g,
        planners, planner);
    }
  }

  lemma PlannersGrow(due: map<int, real>, g: Setting, planners: seq<Planner>, planner: Planner)
    requires DueOk(due, g, planners)
    ensures DueOk(due, g, planners + [planner])
  {
    forall id | id in due ensures IsPlanned(g, planners + [planner], id, due[id]) {
      var m :| m in g.messages && m.id == id && GivenBy(m, planners, due[id]);
      var i :| 0 <= i < |planners| && planners[i](m.mailbox, m.ordinal, m.id) == Success(due[id]);
      assert (planners + [planner])[i] == planners[i];
    }
  }

  lemma NoRows(due: map<int, real>, planner: Planner)
    ensures PlanRows(due, [], planner) == Success(due) && Ids([]) == {}
  {
  }

  lemma LastRow(due: map<int, real>, rows: seq<Message>, planner: Planner)
    requires rows != [] && PlanRows(due, rows, planner).Success?
    ensures var init, last := rows[..|rows| - 1], rows[|rows| - 1];
            var before := PlanRows(due, init, planner);
            var at := planner(last.mailbox, last.ordinal, last.id);
            && before.Success? && at.Success?
            && PlanRows(due, rows, planner).value ==
                 if last.id in before.value then before.value else before.value[last.id := at.value]
  {
  }

  lemma IdsOfLast(init: seq<Message>, last: Message)
    ensures Ids(init + [last]) == Ids(init) + {last.id}
  {
    assert last in init + [last];
  }

  lemma OneMoreDue(due: map<int, real>, m: Message, at: real, g: Setting, planners: seq<Planner>, planner: Planner)
    requires DueOk(due, g, planners + [planner]) && m in g.messages
    requires planner(m.mailbox, m.ordinal, m.id) == Success(at)
    ensures DueOk(due[m.id := at], g, planners + [planner])
  {
    var all := planners + [planner];
    assert all[|planners|] == planner;
    assert GivenBy(m, all, at);
    var due' := due[m.id := at];
    forall id | id in due' ensures IsPlanned(g, all, id, due'[id]) {}
  }

  /** What others hold does not depend on one's own entry. */
  lemma LockedByOthers(running: map<int, Execution>, p: int, x: Execution)
    ensures Locked(running[p := x], p) == Locked(running, p)
  {
    hide LockedBy;
    var running' := running[p := x];
    forall id | id in Locked(running, p) ensures id in Locked(running', p) {
      var q :| q in running && q != p && id in LockedBy(running[q]);
      assert id in LockedBy(running'[q]);
    }
    forall id | id in Locked(running', p) ensures id in Locked(running, p) {
      var q :| q in running' && q != p && id in LockedBy(running'[q]);
      assert id in LockedBy(running[q]);
    }
  }

  /** An execution's entry adds at most its own rows to what others see locked. */
  lemma LockedByOneMore(running: map<int, Execution>, p: int, x: Execution, q: int)
    ensures Locked(running[p := x], q) <= Locked(running, q) + LockedBy(x)
  {
    hide LockedBy;
    var running' := running[p := x];
    forall id | id in Locked(running', q) && id !in LockedBy(x) ensures id in Locked(running, q) {
      var o :| o in running' && o != q && id in LockedBy(running'[o]);
      assert id in LockedBy(running[o]);
    }
  }

  lemma {:induction false} UnhandledDistinct(messages: seq<Message>, due: map<int, real>, locked: set<int>)
    requires DistinctIds(messages)
    ensures DistinctIds(Unhandled(messages, due, locked))
  {
    if messages != [] {
      UnhandledDistinct(messages[1..], due, locked);
      var rest := Unhandled(messages[1..], due, locked);
      forall i | 0 <= i < |rest| ensures rest[i].id != messages[0].id {
        assert rest[i] in messages[1..];
      }
    }
  }

  lemma FetchKeepsInv(s: State, p: int, g: Setting)
    requires Sensible(g) && Inv(s, g) && p in s.running && s.running[p].Claimed?
    ensures Inv(Step(s, Fetch(p), g), g)
  {
    hide Unhandled;
    var s' := Step(s, Fetch(p), g);
    var locked := Locked(s.running, p);
    var free := Unhandled(g.messages, s.due, locked);
    UnhandledDistinct(g.messages, s.due, locked);
    var rows := Take(free, g.limit);
    var x := s'.running[p];
    LockedByOthers(s.running, p, x);
    assert s'.running == s.running[p := x];
    forall m | m in rows ensures m in free {}
    assert ExecutionOk(s', g, p);
    forall q | q in s'.running ensures ExecutionOk(s', g, q) {
      if q != p {
        assert ExecutionOk(s, g, q);
        OthersUntouched(s.running, p, x, q);
      }
    }
  }

  /** Rows taken from what was free are not another execution's rows. */
  lemma OthersUntouched(running: map<int, Execution>, p: int, x: Execution, q: int)
    requires p in running && q in running && p != q
    requires LockedBy(x) !! Locked(running, p)
    ensures forall id | id in LockedBy(running[q]) && id !in Locked(running, q) :: id !in Locked(running[p := x], q)
  {
    hide LockedBy;
    LockedByOneMore(running, p, x, q);
    forall id | id in LockedBy(running[q]) && id !in Locked(running, q) ensures id !in LockedBy(x) {
      assert id in Locked(running, p);
    }
  }

  lemma CommitKeepsInv(s: State, p: int, planner: Planner, g: Setting)
    requires Sensible(g) && Inv(s, g) && p in s.running && s.running[p].Fetched?
    ensures Inv(Step(s, Commit(p, planner), g), g)
  {
    hide PlanRows, JobAfter, Unhandled, DueOk;
    var s' := Step(s, Commit(p, planner), g);
    var rows := s.running[p].rows;
    assert ExecutionOk(s, g, p);
    if PlanRows(s.due, rows, planner).Success? { PlanRowsFacts(s.due, rows, planner, g, s.planners); }
    assert s'.job.total == s.job.total by { JobAfterTotal(s.job, s.running[p], |rows|, g.limit, s.now); }
    forall q | q in s'.running ensures ExecutionOk(s', g, q) {
      assert ExecutionOk(s, g, q);

      var x := s.running[q];
      if x.Fetched? {
        forall m | m in x.rows ensures m.id !in s'.due {
          NotAnothers(s.running, p, q, m.id);
        }
      }
    }
  }

  lemma NotAnothers(running: map<int, Execution>, p: int, q: int, id: int)
    requires p in running && p != q && id !in Locked(running, q)
    ensures id !in LockedBy(running[p])
  {
  }

  lemma JobAfterTotal(job: RenderJob, e: Execution, count: nat, limit: nat, now: int)
    ensures JobAfter(job, e, count, limit, now).Some? ==> JobAfter(job, e, count, limit, now).value.total == job.total
  {
  }

  lemma WithoutExecution(s: State, s': State, p: int, g: Setting)
    requires Inv(s, g) && s'.running == s.running - {p} && s'.due == s.due && s'.planners == s.planners
             && s'.job.total == s.job.total
    ensures Inv(s', g)
  {
    forall q | q in s'.running ensures ExecutionOk(s', g, q) {
      assert ExecutionOk(s, g, q);
    }
  }

  lemma StepKeepsInv(s: State, e: Event, g: Setting)
    requires Sensible(g) && Inv(s, g)
    ensures Inv(Step(s, e, g), g)
  {
    var s' := Step(s, e, g);
    match e {
      case Fetch(p) => if p in s.running && s.running[p].Claimed? { FetchKeepsInv(s, p, g); }
      case Commit(p, planner) => if p in s.running && s.running[p].Fetched? { CommitKeepsInv(s, p, planner, g); }
      case Claim(p, owner) =>
        if s' != s { assert s'.running == s.running[p := s'.running[p]]; }
        forall q | q in s'.running ensures ExecutionOk(s', g, q) {
          if q in s.running && s' != s {
            assert ExecutionOk(s, g, q);
            LockedByOneMore(s.running, p, s'.running[p], q);
          }
        }
      case Crash(p) => WithoutExecution(s, s', p, g);
      case Fail(p) => if p in s.running { WithoutExecution(s, s', p, g); }
      case Tick(_) => forall q | q in s'.running ensures ExecutionOk(s', g, q) { assert ExecutionOk(s, g, q); }
    }
  }

  lemma {:induction false} RunKeepsInv(events: seq<Event>, g: Setting)
    requires Sensible(g)
    ensures Inv(Run(Start(g), events, g), g)
  {
    if events != [] {
      var init := events[..|events| - 1];
      RunKeepsInv(init, g);
      StepKeepsInv(Run(Start(g), init, g), events[|events| - 1], g);
    }
  }

  // ---- Main results ----------------------------------------------------------------------------------

  /** Every chunk planned with the same inputs: the limits and settings did not change while rendering. */
  ghost predicate FixedPlanner(events: seq<Event>, planner: Planner) {
    forall i | 0 <= i < |events| && events[i].Commit? :: events[i].planner == planner
  }

  lemma {:induction false} OnlyPlanner(events: seq<Event>, g: Setting, planner: Planner)
    requires FixedPlanner(events, planner)
    ensures forall i | 0 <= i < |Run(Start(g), events, g).planners| :: Run(Start(g), events, g).planners[i] == planner
  {
    hide PlanRows, Locked, Unhandled;
    if events != [] {
      var init, e := events[..|events| - 1], events[|events| - 1];
      forall i | 0 <= i < |init| && init[i].Commit? ensures init[i].planner == planner { assert init[i] == events[i]; }
      OnlyPlanner(init, g, planner);
      var s, s' := Run(Start(g), init, g), Run(Start(g), events, g);
      assert s' == Step(s, e, g);
      assert s'.planners == s.planners || (e.Commit? && s'.planners == s.planners + [e.planner]);
    }
  }

  /**
   However chunks are sized, split, ordered, replayed or overlapped, two runs with one planner never give a
   message two times.
   */
  lemma DueTimesAgree(events: seq<Event>, events': seq<Event>, g: Setting, limit': nat, planner: Planner)
    requires Sensible(g) && limit' >= 1 && FixedPlanner(events, planner) && FixedPlanner(events', planner)
    ensures var due, due' := Run(Start(g), events, g).due, Run(Start(g), events', g.(limit := limit')).due;
            && (forall id | id in due :: IsPlanned(g, [planner], id, due[id]))
            && forall id | id in due && id in due' :: due[id] == due'[id]
  {
    hide Step;
    var g' := g.(limit := limit');
    RunKeepsInv(events, g);
    RunKeepsInv(events', g');
    OnlyPlanner(events, g, planner);
    OnlyPlanner(events', g', planner);
    var s, s' := Run(Start(g), events, g), Run(Start(g), events', g');
    hide Run;
    forall id | id in s.due ensures IsPlanned(g, [planner], id, s.due[id]) {
      PlannedByOne(g, s.planners, planner, id, s.due[id]);
    }
    forall id | id in s.due && id in s'.due ensures s.due[id] == s'.due[id] {
      PlannedByOne(g', s'.planners, planner, id, s'.due[id]);
      OneTimeEach(g, planner, id, s.due[id], s'.due[id]);
    }
  }

  lemma PlannedByOne(g: Setting, planners: seq<Planner>, planner: Planner, id: int, at: real)
    requires IsPlanned(g, planners, id, at) && forall i | 0 <= i < |planners| :: planners[i] == planner
    ensures IsPlanned(g, [planner], id, at)
  {
    var m :| m in g.messages && m.id == id && GivenBy(m, planners, at);
    var i :| 0 <= i < |planners| && planners[i](m.mailbox, m.ordinal, m.id) == Success(at);
    assert [planner][0] == planners[i];
    assert GivenBy(m, [planner], at);
  }

  lemma OneTimeEach(g: Setting, planner: Planner, id: int, at: real, at': real)
    requires DistinctIds(g.messages) && IsPlanned(g, [planner], id, at) && IsPlanned(g, [planner], id, at')
    ensures at == at'
  {
    var m :| m in g.messages && m.id == id && GivenBy(m, [planner], at);
    var m' :| m' in g.messages && m'.id == id && GivenBy(m', [planner], at');
    assert m == m';
  }

  /**
   Exactly what a finishing chunk leaves behind, under any overlap: the messages it skipped because
   another execution held them and that are still unhandled. The job says READY either way.
   */
  lemma FinishLeavesSkipped(events: seq<Event>, p: int, planner: Planner, g: Setting)
    requires Sensible(g)
    requires var s := Run(Start(g), events, g);
             p in s.running && s.running[p].Fetched? && |s.running[p].rows| < g.limit
             && !Step(s, Commit(p, planner), g).job.state.Failed?
    ensures var s := Run(Start(g), events, g);
            var s' := Step(s, Commit(p, planner), g);
            s'.job.state.Ready? && forall m | m in g.messages ::
              m in Remaining(s', g) <==> m in Remaining(s, g) && m !in s.running[p].rows && m.id in s.running[p].skipped
  {
    hide *;
    RunKeepsInv(events, g);
    FinishFrom(Run(Start(g), events, g), p, planner, g);
  }

  lemma FinishFrom(s: State, p: int, planner: Planner, g: Setting)
    requires Sensible(g) && Inv(s, g)
    requires p in s.running && s.running[p].Fetched? && |s.running[p].rows| < g.limit
    requires !Step(s, Commit(p, planner), g).job.state.Failed?
    ensures var s' := Step(s, Commit(p, planner), g);
            s'.job.state.Ready? && forall m | m in g.messages ::
              m in Remaining(s', g) <==> m in Remaining(s, g) && m !in s.running[p].rows && m.id in s.running[p].skipped
  {
    hide Unhandled, PlanRows, DueOk, Locked;
    assert ExecutionOk(s, g, p);
    var rows := s.running[p].rows;
    PlanRowsFacts(s.due, rows, planner, g, s.planners);
    forall m, r | m in g.messages && r in rows && r.id == m.id ensures m == r {}
  }

  /** The lease is exclusive: an execution starts only when no other is alive. */
  ghost predicate Exclusive(events: seq<Event>, g: Setting) {
    forall k | 0 <= k < |events| && events[k].Claim? :: Run(Start(g), events[..k], g).running == map[]
  }

  lemma {:induction false} IdsCount(rows: seq<Message>)
    requires DistinctIds(rows)
    ensures |Ids(rows)| == |rows|
  {
    if rows == [] {
      assert Ids(rows) == {};
    } else {
      var init, last := rows[..|rows| - 1], rows[|rows| - 1];
      IdsCount(init);
      assert rows == init + [last];
      IdsOfLast(init, last);
      forall i | 0 <= i < |init| ensures init[i].id != last.id {
        assert rows[i] == init[i];
      }
    }
  }

  lemma SubsetSize(a: set<int>, b: set<int>)
    requires a <= b
    ensures |b - a| == |b| - |a|
  {
    assert b == a + (b - a);
  }

  lemma UnhandledCount(messages: seq<Message>, due: map<int, real>)
    requires DistinctIds(messages) && due.Keys <= Ids(messages)
    ensures |Unhandled(messages, due, {})| + |due.Keys| == |messages|
  {
    var rest := Unhandled(messages, due, {});
    UnhandledDistinct(messages, due, {});
    IdsCount(rest);
    IdsCount(messages);
    assert Ids(rest) == Ids(messages) - due.Keys;
    SubsetSize(due.Keys, Ids(messages));
  }

  /** Under an exclusive lease: one execution at most, holding the count that is stored, and nothing skipped. */
  ghost predicate ExclusiveInv(s: State, g: Setting) {
    && (forall p, q | p in s.running && q in s.running :: p == q)
    && (forall p | p in s.running ::
          s.running[p].processed == s.job.processed && (s.running[p].Fetched? ==> s.running[p].skipped == {}))
    && s.job.processed + |Remaining(s, g)| == |g.messages|
    && (s.job.state.Ready? ==> Remaining(s, g) == [] && s.running == map[])
  }

  lemma OnlyOne(running: map<int, Execution>, p: int)
    requires p in running && forall q | q in running :: q == p
    ensures Locked(running, p) == {} && running - {p} == map[]
  {
    forall q ensures q in running.Keys <==> q == p {}
    assert running - {p} == map[];
    assert forall id :: id !in Locked(running, p);
  }

  lemma ExclusiveCommit(s: State, p: int, planner: Planner, g: Setting)
    requires Sensible(g) && Inv(s, g) && ExclusiveInv(s, g) && p in s.running && s.running[p].Fetched?
    ensures ExclusiveInv(Step(s, Commit(p, planner), g), g)
    ensures Answers(planner) ==> !Step(s, Commit(p, planner), g).job.state.Failed?  || s.job.state.Failed?
  {
    hide PlanRows, Unhandled, DueOk;
    var rows := s.running[p].rows;
    OnlyOne(s.running, p);
    assert ExecutionOk(s, g, p);
    if Answers(planner) { PlanRowsSucceed(s.due, rows, planner); }
    DueCounts(s.due, g, s.planners);
    if PlanRows(s.due, rows, planner).Success? {
      var due' := PlanRows(s.due, rows, planner).value;
      PlannedCount(s.due, rows, planner, g, s.planners);
      if |rows| < g.limit && Unhandled(g.messages, due', {}) != [] {
        var m := Unhandled(g.messages, due', {})[0];
        assert m in Unhandled(g.messages, due', {});
        NothingLeft(s.due, rows, m, planner, g, s.planners);
      }
    }
  }

  lemma DueCounts(due: map<int, real>, g: Setting, planners: seq<Planner>)
    requires DueOk(due, g, planners) && Sensible(g)
    ensures |Unhandled(g.messages, due, {})| + |due.Keys| == |g.messages|
  {
    hide Unhandled;
    forall id | id in due ensures id in Ids(g.messages) {
      assert IsPlanned(g, planners, id, due[id]);
    }
    UnhandledCount(g.messages, due);
  }

  /** Planning a batch of unhandled messages handles exactly that many more. */
  lemma PlannedCount(due: map<int, real>, rows: seq<Message>, planner: Planner, g: Setting, planners: seq<Planner>)
    requires DueOk(due, g, planners) && Sensible(g) && DistinctIds(rows) && PlanRows(due, rows, planner).Success?
    requires forall m | m in rows :: m in g.messages && m.id !in due
    ensures var due' := PlanRows(due, rows, planner).value;
            |Unhandled(g.messages, due', {})| == |Unhandled(g.messages, due, {})| - |rows|
  {
    hide PlanRows, Unhandled, DueOk;
    var due' := PlanRows(due, rows, planner).value;
    PlanRowsFacts(due, rows, planner, g, planners);
    DueCounts(due, g, planners);
    DueCounts(due', g, planners + [planner]);
    IdsCount(rows);
    assert due.Keys !! Ids(rows);
  }

  lemma NothingLeft(due: map<int, real>, rows: seq<Message>, m: Message, planner: Planner, g: Setting,
        planners: seq<Planner>)
    requires DueOk(due, g, planners) && PlanRows(due, rows, planner).Success?
    requires forall r | r in rows :: r in g.messages
    requires forall r | r in Unhandled(g.messages, due, {}) :: r in rows
    ensures m !in Unhandled(g.messages, PlanRows(due, rows, planner).value, {})
  {
    hide PlanRows, DueOk;
    PlanRowsFacts(due, rows, planner, g, planners);
  }

  lemma {:induction false} PlanRowsSucceed(due: map<int, real>, rows: seq<Message>, planner: Planner)
    requires Answers(planner)
    ensures PlanRows(due, rows, planner).Success?
  {
    if rows != [] { PlanRowsSucceed(due, rows[..|rows| - 1], planner); }
  }

  lemma ExclusiveFetch(s: State, p: int, g: Setting)
    requires ExclusiveInv(s, g) && p in s.running && s.running[p].Claimed?
    ensures ExclusiveInv(Step(s, Fetch(p), g), g)
  {
    hide Unhandled, PlanRows, Locked;
    OnlyOne(s.running, p);
    var s' := Step(s, Fetch(p), g);
  }

  lemma ExclusiveStep(s: State, e: Event, g: Setting)
    requires Sensible(g) && Inv(s, g) && ExclusiveInv(s, g)
    requires e.Claim? ==> s.running == map[]
    ensures ExclusiveInv(Step(s, e, g), g)
  {
    hide Inv, DueOk, Unhandled, PlanRows, Locked, ExecutionOk;
    var s' := Step(s, e, g);
    match e {
      case Claim(p, owner) => if s' != s { assert s'.running == map[p := s'.running[p]]; }
      case Fetch(p) => if s' != s { ExclusiveFetch(s, p, g); }
      case Commit(p, planner) => if p in s.running && s.running[p].Fetched? { ExclusiveCommit(s, p, planner, g); }
      case Crash(p) => if p in s.running { OnlyOne(s.running, p); } else { assert s.running - {p} == s.running; }
      case Fail(p) => if p in s.running { OnlyOne(s.running, p); }
      case Tick(_) =>
    }
  }

  lemma {:induction false} ExclusivePrefix(events: seq<Event>, g: Setting)
    requires events != [] && Exclusive(events, g)
    ensures Exclusive(events[..|events| - 1], g)
  {
    var init := events[..|events| - 1];
    forall k | 0 <= k < |init| && init[k].Claim? ensures Run(Start(g), init[..k], g).running == map[] {
      assert events[k] == init[k] && events[..k] == init[..k];
    }
  }

  lemma {:induction false} RunKeepsExclusive(events: seq<Event>, g: Setting)
    requires Sensible(g) && Exclusive(events, g)
    ensures ExclusiveInv(Run(Start(g), events, g), g)
  {
    if events == [] {
      UnhandledCount(g.messages, map[]);
    } else {
      var init := events[..|events| - 1];
      ExclusivePrefix(events, g);
      RunKeepsExclusive(init, g);
      RunKeepsInv(init, g);
      ExclusiveStep(Run(Start(g), init, g), events[|events| - 1], g);
    }
  }

  /**
   Under an exclusive lease, through every crash and replay: the stored count and the messages still
   to plan add up to all messages, and a READY job leaves none. Every message then has its planned time.
   */
  lemma RenderConserves(events: seq<Event>, g: Setting)
    requires Sensible(g) && Exclusive(events, g)
    ensures var s := Run(Start(g), events, g);
            && s.job.processed + |Remaining(s, g)| == |g.messages|
            && (s.job.state.Ready? ==> Remaining(s, g) == [])
            && (s.job.state.Ready? ==> forall m | m in g.messages ::
              m.id in s.due && IsPlanned(g, s.planners, m.id, s.due[m.id]))
  {
    hide Step;
    RunKeepsInv(events, g);
    RunKeepsExclusive(events, g);
    var s := Run(Start(g), events, g);
    if s.job.state.Ready? {
      forall m | m in g.messages ensures m.id in s.due {
        assert m !in Remaining(s, g);
      }
    }
  }

  // ---- When the count is kept, and when READY means done ----------------------------------------------

  /** The event is a commit that takes effect. */
  ghost predicate Commits(s: State, e: Event, g: Setting) {
    && e.Commit? && e.process in s.running && s.running[e.process].Fetched?
    && var x := s.running[e.process];
       PlanRows(s.due, x.rows, e.planner).Success? && JobAfter(s.job, x, |x.rows|, g.limit, s.now).Some?
  }

  /** A commit that takes effect and moves the job to READY. */
  ghost predicate Finishes(s: State, e: Event, g: Setting) {
    Commits(s, e, g) && |s.running[e.process].rows| < g.limit
  }

  ghost function At(events: seq<Event>, k: nat, g: Setting): State
    requires k <= |events|
  {
    Run(Start(g), events[..k], g)
  }

  lemma AtNext(events: seq<Event>, k: nat, g: Setting)
    requires k < |events|
    ensures At(events, k + 1, g) == Step(At(events, k, g), events[k], g)
  {
    hide Step;
    assert events[..k + 1][..k] == events[..k];
  }

  /** The stored count and the messages still to plan. */
  function Total(s: State, g: Setting): nat {
    s.job.processed + |Remaining(s, g)|
  }

  /** What a commit does to the two together: it forgets whatever was counted since the execution's claim. */
  lemma CommitShiftsTotal(s: State, e: Event, g: Setting)
    requires Sensible(g) && Inv(s, g) && Commits(s, e, g)
    ensures Total(Step(s, e, g), g) - Total(s, g) == s.running[e.process].processed - s.job.processed
  {
    hide Unhandled, PlanRows, DueOk, Locked;
    assert ExecutionOk(s, g, e.process);
    PlannedCount(s.due, s.running[e.process].rows, e.planner, g, s.planners);
  }

  lemma OthersKeepTotal(s: State, e: Event, g: Setting)
    requires !Commits(s, e, g)
    ensures var s' := Step(s, e, g);
            && s'.due == s.due && s'.job.processed == s.job.processed && Total(s', g) == Total(s, g)
            && (s'.job.state.Ready? ==> s.job.state.Ready?)
  {
    hide Unhandled, PlanRows, DueOk, Locked;
  }

  /** One commit, in any reachable state: it keeps the total exactly when nobody counted since its claim. */
  lemma KeepsCountIff(events: seq<Event>, e: Event, g: Setting)
    requires Sensible(g) && Commits(Run(Start(g), events, g), e, g)
    ensures var s := Run(Start(g), events, g);
            Total(Step(s, e, g), g) == Total(s, g) <==> s.running[e.process].processed == s.job.processed
  {
    hide *;
    RunKeepsInv(events, g);
    CommitShiftsTotal(Run(Start(g), events, g), e, g);
  }

  /** Every commit of the run that took effect held the count that was stored. */
  ghost predicate CountsCurrent(events: seq<Event>, g: Setting) {
    forall k: nat | k < |events| && Commits(At(events, k, g), events[k], g) ::
      At(events, k, g).running[events[k].process].processed == At(events, k, g).job.processed
  }

  /** Whole runs, any overlap: the count is right throughout exactly when every commit held the stored count. */
  lemma RunConservesIff(events: seq<Event>, g: Setting)
    requires Sensible(g)
    ensures (forall k: nat | k <= |events| :: Total(At(events, k, g), g) == |g.messages|) <==> CountsCurrent(events, g)
  {
    hide Unhandled, PlanRows, Step, Run, Inv, JobAfter;
    if CountsCurrent(events, g) {
      forall k: nat | k <= |events| ensures Total(At(events, k, g), g) == |g.messages| {
        CurrentConserves(events, k, g);
      }
    }
    if forall k: nat | k <= |events| :: Total(At(events, k, g), g) == |g.messages| {
      forall k: nat | k < |events| && Commits(At(events, k, g), events[k], g)
        ensures At(events, k, g).running[events[k].process].processed == At(events, k, g).job.processed
      {
        AtNext(events, k, g);
        AtKeepsInv(events, k, g);
        CommitShiftsTotal(At(events, k, g), events[k], g);
      }
    }
  }

  lemma AtKeepsInv(events: seq<Event>, k: nat, g: Setting)
    requires Sensible(g) && k <= |events|
    ensures Inv(At(events, k, g), g)
  {
    RunKeepsInv(events[..k], g);
  }

  lemma {:induction false} CurrentConserves(events: seq<Event>, k: nat, g: Setting)
    requires Sensible(g) && k <= |events| && CountsCurrent(events, g)
    ensures Total(At(events, k, g), g) == |g.messages|
  {
    hide Unhandled, PlanRows, Step, Run, Inv, Commits;
    if k == 0 {
      NothingDone(events, g);
    } else {
      CurrentConserves(events, k - 1, g);
      AtNext(events, k - 1, g);
      AtKeepsInv(events, k - 1, g);
      var s := At(events, k - 1, g);
      if Commits(s, events[k - 1], g) {
        CommitShiftsTotal(s, events[k - 1], g);
      } else {
        OthersKeepTotal(s, events[k - 1], g);
      }
    }
  }

  lemma NothingDone(events: seq<Event>, g: Setting)
    requires Sensible(g)
    ensures Total(At(events, 0, g), g) == |g.messages|
  {
    UnhandledCount(g.messages, map[]);
  }

  lemma NoneLeft(s: State, g: Setting)
    ensures Remaining(s, g) == [] <==> forall m | m in g.messages :: m.id in s.due
  {
    hide Unhandled;
    var left := Remaining(s, g);
    if left != [] {
      assert left[0] in left;
    } else {
      forall m | m in g.messages ensures m.id in s.due { assert m !in left; }
    }
  }

  /** Nothing takes a due time away. */
  lemma DueGrows(s: State, e: Event, g: Setting)
    requires Inv(s, g)
    ensures s.due.Keys <= Step(s, e, g).due.Keys
  {
    hide Unhandled, DueOk, Locked;
    if Commits(s, e, g) {
      assert ExecutionOk(s, g, e.process);
      PlanRowsFacts(s.due, s.running[e.process].rows, e.planner, g, s.planners);
    } else {
      OthersKeepTotal(s, e, g);
    }
  }

  lemma {:induction false} DueGrowsOver(events: seq<Event>, j: nat, k: nat, g: Setting)
    requires Sensible(g) && j <= k <= |events|
    ensures At(events, j, g).due.Keys <= At(events, k, g).due.Keys
    decreases k
  {
    hide *;
    if j < k {
      DueGrowsOver(events, j, k - 1, g);
      AtKeepsInv(events, k - 1, g);
      AtNext(events, k - 1, g);
      DueGrows(At(events, k - 1, g), events[k - 1], g);
    }
  }

  /** A READY job was finished by some commit. */
  lemma {:induction false} SomeFinish(events: seq<Event>, k: nat, g: Setting) returns (j: nat)
    requires k <= |events| && At(events, k, g).job.state.Ready?
    ensures j < k && Finishes(At(events, j, g), events[j], g)
  {
    hide Unhandled, PlanRows, Locked, Run;
    assert k > 0 by { NotReadyAtFirst(events, g); }
    var s := At(events, k - 1, g);
    AtNext(events, k - 1, g);
    if Finishes(s, events[k - 1], g) {
      j := k - 1;
    } else {
      if !Commits(s, events[k - 1], g) { OthersKeepTotal(s, events[k - 1], g); }
      j := SomeFinish(events, k - 1, g);
    }
  }

  lemma NotReadyAtFirst(events: seq<Event>, g: Setting)
    ensures !At(events, 0, g).job.state.Ready?
  {
  }

  /** Every message the chunk of this finishing commit skipped has its time by the end of the run. */
  ghost predicate SkippedHandled(events: seq<Event>, k: nat, g: Setting)
    requires k < |events| && Finishes(At(events, k, g), events[k], g)
  {
    forall m | m in g.messages && m.id in At(events, k, g).running[events[k].process].skipped ::
      m.id in Run(Start(g), events, g).due
  }

  /** What is left after a finishing commit, at the end of any run that has one: what it skipped and nobody handled. */
  lemma LeftIsSkipped(events: seq<Event>, k: nat, g: Setting)
    requires Sensible(g) && k < |events| && Finishes(At(events, k, g), events[k], g)
    ensures Remaining(Run(Start(g), events, g), g) == [] <==> SkippedHandled(events, k, g)
  {
    hide PlanRows, DueOk, Locked, Step, Run, JobAfter, Inv, Unhandled;
    var s, e, s' := At(events, k, g), events[k], Run(Start(g), events, g);
    assert events[..|events|] == events;
    AtKeepsInv(events, k, g);
    AtNext(events, k, g);
    DueGrowsOver(events, k + 1, |events|, g);
    FinishSucceeds(s, e, g);
    FinishFrom(s, e.process, e.planner, g);
    NoneLeft(s', g);
    if SkippedHandled(events, k, g) {
      forall m | m in g.messages ensures m.id in s'.due {
        assert m in Remaining(At(events, k + 1, g), g) ==> m.id in s.running[e.process].skipped;
      }
    }
  }

  lemma FinishSucceeds(s: State, e: Event, g: Setting)
    requires Finishes(s, e, g)
    ensures !Step(s, Commit(e.process, e.planner), g).job.state.Failed?
  {
    hide PlanRows, Locked, Unhandled;
  }

  /** All that finishing chunks skipped has its time by the end of the run. */
  ghost predicate AllSkippedHandled(events: seq<Event>, g: Setting) {
    forall k: nat | k < |events| && Finishes(At(events, k, g), events[k], g) :: SkippedHandled(events, k, g)
  }

  /** When a READY job leaves nothing, under any overlap: exactly when all that finishing chunks skipped is handled. */
  lemma ReadyLeavesNothingIff(events: seq<Event>, g: Setting)
    requires Sensible(g) && Run(Start(g), events, g).job.state.Ready?
    ensures Remaining(Run(Start(g), events, g), g) == [] <==> AllSkippedHandled(events, g)
  {
    hide PlanRows, Step, Run, Inv, Finishes, SkippedHandled, Unhandled;
    assert events[..|events|] == events;
    var j := SomeFinish(events, |events|, g);
    forall k: nat | k < |events| && Finishes(At(events, k, g), events[k], g)
      ensures Remaining(Run(Start(g), events, g), g) == [] <==> SkippedHandled(events, k, g)
    {
      LeftIsSkipped(events, k, g);
    }
  }

  /** Executions that never overlap skip nothing that stays. */
  lemma ExclusiveHandlesSkipped(events: seq<Event>, g: Setting)
    requires Sensible(g) && Exclusive(events, g) && Run(Start(g), events, g).job.state.Ready?
    ensures AllSkippedHandled(events, g)
  {
    hide *;
    RenderConserves(events, g);
    ReadyLeavesNothingIff(events, g);
  }

  /**
   Two runs that finish, with any chunk sizes, splits, crashes and overlaps, leave the very same due times, if all
   that their finishing chunks skipped is handled.
   */
  lemma ReadyRunsAgree(events: seq<Event>, events': seq<Event>, g: Setting, limit': nat, planner: Planner)
    requires Sensible(g) && limit' >= 1 && FixedPlanner(events, planner) && FixedPlanner(events', planner)
    requires AllSkippedHandled(events, g) && AllSkippedHandled(events', g.(limit := limit'))
    requires Run(Start(g), events, g).job.state.Ready?
    requires Run(Start(g), events', g.(limit := limit')).job.state.Ready?
    ensures Run(Start(g), events, g).due == Run(Start(g), events', g.(limit := limit')).due
  {
    hide *;
    var g' := g.(limit := limit');
    SensibleWith(g, limit');
    ReadyLeavesNothingIff(events, g);
    ReadyLeavesNothingIff(events', g');
    NoneLeft(Run(Start(g), events, g), g);
    NoneLeft(Run(Start(g), events', g'), g');
    DueTimesAgree(events, events', g, limit', planner);
    DueTimesAgree(events', events, g', g.limit, planner);
    assert g'.(limit := g.limit) == g;
    var due, due' := Run(Start(g), events, g).due, Run(Start(g), events', g').due;
    forall id | id in due || id in due' ensures id in due && id in due' {
      if id in due { PlannedIsMessage(g, planner, id, due[id]); } else { PlannedIsMessage(g', planner, id, due'[id]); }
    }
  }

  lemma SensibleWith(g: Setting, limit': nat)
    requires Sensible(g) && limit' >= 1
    ensures Sensible(g.(limit := limit')) && g.limit >= 1 && Start(g.(limit := limit')) == Start(g)
  {
  }

  lemma PlannedIsMessage(g: Setting, planner: Planner, id: int, at: real)
    requires IsPlanned(g, [planner], id, at)
    ensures exists m :: m in g.messages && m.id == id
  {
  }

  /** Every execution alive crashes. */
  lemma {:induction false} CrashAll(s: State, g: Setting) returns (events: seq<Event>)
    ensures Run(s, events, g).running == map[] && Run(s, events, g).due == s.due
    decreases |s.running|
  {
    if s.running == map[] {
      events := [];
    } else {
      var p := SomeExecution(s.running);
      var s' := Step(s, Crash(p), g);
      Without(s.running, p);
      var rest := CrashAll(s', g);
      events := [Crash(p)] + rest;
      RunFrom(s, Crash(p), rest, g);
    }
  }

  lemma SomeExecution(running: map<int, Execution>) returns (p: int)
    requires running != map[]
    ensures p in running
  {
    assert (forall q :: q !in running) ==> running == map[];
    p :| p in running;
  }

  lemma Without(running: map<int, Execution>, p: int)
    requires p in running
    ensures |running - {p}| < |running|
  {
    assert (running - {p}).Keys == running.Keys - {p};
    assert |(running - {p}).Keys| == |running - {p}| && |running.Keys| == |running|;
  }

  /**
   Whether finishing now is safe can be checked before the commit: whatever happens afterwards, no
   message is left when everybody is done, exactly if the chunk holds all that is still unhandled.
   */
  lemma FinishIsSafeIff(events: seq<Event>, e: Event, g: Setting)
    requires Sensible(g) && Finishes(Run(Start(g), events, g), e, g)
    ensures var s := Run(Start(g), events, g);
            (forall more :: Run(Step(s, e, g), more, g).running == map[] ==>
              Remaining(Run(Step(s, e, g), more, g), g) == [])
            <==> (forall m | m in Remaining(s, g) :: m in s.running[e.process].rows)
  {
    hide PlanRows, DueOk, Locked, Step, Run, JobAfter, Inv, Unhandled;
    var s := Run(Start(g), events, g);
    var s' := Step(s, e, g);
    RunKeepsInv(events, g);
    StepKeepsInv(s, e, g);
    FinishSucceeds(s, e, g);
    FinishFrom(s, e.process, e.planner, g);
    LeftAfterFinish(s, e, g);
    if Remaining(s', g) == [] {
      forall more ensures Remaining(Run(s', more, g), g) == [] { NothingLeftStays(s', more, g); }
    } else {
      var crashes := CrashAll(s', g);
      assert Remaining(Run(s', crashes, g), g) == Remaining(s', g);
    }
  }

  lemma LeftAfterFinish(s: State, e: Event, g: Setting)
    requires Sensible(g) && Inv(s, g) && Finishes(s, e, g)
    ensures Remaining(Step(s, e, g), g) == [] <==> forall m | m in Remaining(s, g) :: m in s.running[e.process].rows
  {
    hide PlanRows, DueOk, Locked, Step, JobAfter, Unhandled;
    var s' := Step(s, e, g);
    FinishSucceeds(s, e, g);
    FinishFrom(s, e.process, e.planner, g);
    assert ExecutionOk(s, g, e.process);
    NoneLeft(s', g);
    assert forall m | m in g.messages :: m.id in s'.due <==> m !in Remaining(s', g);
  }

  lemma {:induction false} NothingLeftStays(s: State, events: seq<Event>, g: Setting)
    requires Sensible(g) && Inv(s, g) && Remaining(s, g) == []
    ensures Inv(Run(s, events, g), g) && Remaining(Run(s, events, g), g) == []
  {
    hide PlanRows, DueOk, Locked, Step, Inv, Unhandled;
    if events != [] {
      var init, e := events[..|events| - 1], events[|events| - 1];
      NothingLeftStays(s, init, g);
      var s1 := Run(s, init, g);
      StepKeepsInv(s1, e, g);
      DueGrows(s1, e, g);
      NoneLeft(s1, g);
      NoneLeft(Step(s1, e, g), g);
    }
  }

  lemma {:induction false} NobodyRunning(s: State, events: seq<Event>, g: Setting)
    requires s.job.state.Ready? && s.running == map[]
    ensures Run(s, events, g).job == s.job && Run(s, events, g).due == s.due && Run(s, events, g).running == map[]
  {
    if events != [] { NobodyRunning(s, events[..|events| - 1], g); }
  }

  /** READY is final exactly when no execution is left alive: nothing else protects a finished job. */
  lemma ReadyIsFinalIff(s: State, g: Setting)
    requires s.job.state.Ready?
    ensures (forall events :: Run(s, events, g).job.state.Ready?) <==> s.running == map[]
  {
    if s.running == map[] {
      forall events ensures Run(s, events, g).job.state.Ready? { NobodyRunning(s, events, g); }
    } else {
      var p := SomeExecution(s.running);
      OneStep(s, Fail(p), g);
      assert !Run(s, [Fail(p)], g).job.state.Ready?;
    }
  }

  // ---- One event, row by row ------------------------------------------------------------------------------

  /**
   The rows of a fetch: in the first `k` messages exactly those without a time that nobody else holds, and either as
   many as a chunk takes or all of them.
   */
  ghost predicate FirstFree(g: Setting, due: map<int, real>, locked: set<int>, rows: seq<Message>, k: nat) {
    && k <= |g.messages| && |rows| <= g.limit && (|rows| == g.limit || k == |g.messages|)
    && forall m :: m in rows <==> m in g.messages[..k] && m.id !in due && m.id !in locked
  }

  lemma {:induction false} TakeFree(messages: seq<Message>, due: map<int, real>, locked: set<int>, limit: nat)
    returns (k: nat)
    ensures k <= |messages| && (|Unhandled(messages, due, locked)| < limit ==> k == |messages|)
    ensures forall m :: m in Take(Unhandled(messages, due, locked), limit) <==>
              m in messages[..k] && m.id !in due && m.id !in locked
  {
    var all := Unhandled(messages, due, locked);
    if messages == [] || limit == 0 {
      k := 0;
      if limit > 0 { assert messages[..0] == [] && all == []; }
    } else {
      var m, rest := messages[0], messages[1..];
      var free := m.id !in due && m.id !in locked;
      var k' := TakeFree(rest, due, locked, if free then limit - 1 else limit);
      k := k' + 1;
      assert messages[..k] == [m] + rest[..k'];
      var below := Unhandled(rest, due, locked);
      hide Unhandled;
      if free {
        assert all == [m] + below;
        assert Take(all, limit) == [m] + Take(below, limit - 1);
      } else {
        assert all == below;
      }
    }
  }

  /** A fetch holds the first free messages in id order, and notes the unhandled ones it passed over as locked. */
  lemma FetchGives(s: State, p: int, g: Setting)
    requires p in s.running && s.running[p].Claimed?
    ensures var s', x := Step(s, Fetch(p), g), s.running[p];
            var locked := Locked(s.running, p);
            && p in s'.running && s'.running[p].Fetched?
            && s' == s.(running := s.running[p := s'.running[p]])
            && s'.running[p].owner == x.owner && s'.running[p].processed == x.processed
            && s'.running[p].skipped == locked - s.due.Keys
            && exists k: nat :: FirstFree(g, s.due, locked, s'.running[p].rows, k)
  {
    hide Unhandled;
    var locked := Locked(s.running, p);
    var k := TakeFree(g.messages, s.due, locked, g.limit);
    assert FirstFree(g, s.due, locked, Take(Unhandled(g.messages, s.due, locked), g.limit), k);
  }

  /** Every row has a time from this planner. */
  ghost predicate HasTimes(rows: seq<Message>, planner: Planner) {
    forall m | m in rows :: planner(m.mailbox, m.ordinal, m.id).Success?
  }

  /** The rows without a time get the planner's; all other times stay. */
  ghost predicate TimesWritten(due: map<int, real>, due': map<int, real>, rows: seq<Message>, planner: Planner)
    requires HasTimes(rows, planner)
  {
    && due'.Keys == due.Keys + Ids(rows)
    && (forall id | id in due :: due'[id] == due[id])
    && forall m | m in rows && m.id !in due :: due'[m.id] == planner(m.mailbox, m.ordinal, m.id).value
  }

  lemma OneTimeMore(due: map<int, real>, before: map<int, real>, init: seq<Message>, m: Message, planner: Planner)
    requires HasTimes(init, planner) && TimesWritten(due, before, init, planner) && forall x | x in init :: x.id != m.id
    requires planner(m.mailbox, m.ordinal, m.id).Success?
    ensures HasTimes(init + [m], planner)
    ensures var at := planner(m.mailbox, m.ordinal, m.id).value;
            TimesWritten(due, if m.id in before then before else before[m.id := at], init + [m], planner)
  {
    IdsOfLast(init, m);
  }

  lemma {:induction false} PlanRowsWrites(due: map<int, real>, rows: seq<Message>, planner: Planner)
    requires DistinctIds(rows)
    ensures PlanRows(due, rows, planner).Success? <==> HasTimes(rows, planner)
    ensures HasTimes(rows, planner) ==> TimesWritten(due, PlanRows(due, rows, planner).value, rows, planner)
  {
    if rows != [] {
      var init, m := rows[..|rows| - 1], rows[|rows| - 1];
      assert rows == init + [m];
      assert forall x | x in init :: x.id != m.id;
      PlanRowsWrites(due, init, planner);
      hide DistinctIds, TimesWritten;
      if HasTimes(init, planner) && planner(m.mailbox, m.ordinal, m.id).Success? {
        OneTimeMore(due, PlanRows(due, init, planner).value, init, m, planner);
      }
    }
  }

  /**
   What a commit does, in any state in which rows have distinct ids: its execution ends. If a row has no time or the
   count would pass the total the job fails and nothing is written; otherwise the rows get the planner's times, the
   stored count is the one read with the claim plus the rows, and the job is READY after a short chunk or has a new
   lease.
   */
  lemma CommitGives(s: State, p: int, planner: Planner, g: Setting)
    requires p in s.running && s.running[p].Fetched? && DistinctIds(s.running[p].rows)
    ensures var s', x := Step(s, Commit(p, planner), g), s.running[p];
            && s'.running == s.running - {p} && s'.now == s.now
            && if !HasTimes(x.rows, planner) || x.processed + |x.rows| > s.job.total then
                 s'.job == s.job.(state := Failed) && s'.due == s.due && s'.planners == s.planners
               else
                 && TimesWritten(s.due, s'.due, x.rows, planner) && s'.planners == s.planners + [planner]
                 && s'.job.processed == x.processed + |x.rows| && s'.job.total == s.job.total
                 && if |x.rows| < g.limit then s'.job.state == Ready && s'.job.lease == s.job.lease
                    else s'.job.state == s.job.state && s'.job.lease == Some(Lease(x.owner, s.now + LEASE_TTL_SECONDS))
  {
    hide PlanRows, HasTimes, TimesWritten;
    PlanRowsWrites(s.due, s.running[p].rows, planner);
  }

  /** An execution that crashes ends without a trace; one that fails also fails the job; time only moves the clock. */
  lemma EndingsGive(s: State, p: int, seconds: nat, g: Setting)
    requires p in s.running
    ensures Step(s, Crash(p), g) == s.(running := s.running - {p})
    ensures Step(s, Fail(p), g) == s.(running := s.running - {p}, job := s.job.(state := Failed))
    ensures Step(s, Tick(seconds), g) == s.(now := s.now + seconds)
  {
    hide PlanRows, Unhandled;
  }

  // ---- Lease exclusion ---------------------------------------------------------------------------------

  /** What an event does to the lease: an execution starts, or a running one leaves a lease of its own behind. */
  ghost function MarkOf(s: State, e: Event, g: Setting): seq<Mark> {
    if e.Claim? && e.process !in s.running && e.process in Step(s, e, g).running then [Taken(e.owner, s.now)]
    else if e.Commit? && e.process in s.running
            && Step(s, e, g).job.lease == Some(Lease(s.running[e.process].owner, s.now + LEASE_TTL_SECONDS))
    then [Renewed(s.running[e.process].owner, s.now)]
    else []
  }

  ghost function Marks(events: seq<Event>, g: Setting): seq<Mark> {
    if events == [] then []
    else
      var init := events[..|events| - 1];
      Marks(init, g) + MarkOf(Run(Start(g), init, g), events[|events| - 1], g)
  }

  lemma LeaseStep(s: State, e: Event, g: Setting)
    ensures var mark, lease := MarkOf(s, e, g), Step(s, e, g).job.lease;
            && |mark| <= 1 && (mark == [] ==> lease == s.job.lease)
            && (mark != [] ==> lease == Some(Lease(mark[0].owner, mark[0].at + LEASE_TTL_SECONDS)))
            && (mark != [] && mark[0].Taken? ==> CanClaim(s.job.state, s.job.lease, mark[0].owner, mark[0].at))
  {
  }

  /**
   Leases exclude, over every run: the stored lease is the one set last, and an execution of another owner
   starts only when its lifetime is over, counted from the claim or the progress that set it.
   */
  lemma {:induction false} LeaseExcludes(events: seq<Event>, g: Setting)
    ensures Exclusion(Marks(events, g))
    ensures Run(Start(g), events, g).job.lease == LeaseOf(Marks(events, g))
  {
    hide Step, MarkOf, Exclusion, LeaseOf, Free;
    if events == [] {
      NoMarksYet();
    } else {
      var init, e := events[..|events| - 1], events[|events| - 1];
      LeaseExcludes(init, g);
      var s, marks := Run(Start(g), init, g), Marks(init, g);
      LeaseStep(s, e, g);
      var mark := MarkOf(s, e, g);
      if mark == [] {
        assert marks + mark == marks;
      } else {
        FreeMeansNoLiveLease(marks, mark[0].owner, mark[0].at);
        OneMoreMark(marks, mark[0]);
        assert mark == [mark[0]];
      }
    }
  }

  /**
   Exactly when a claim takes the job, after any run: when it is unfinished and free for this owner. It then hands
   out what is stored and takes the lease; otherwise nothing happens. A READY or FAILED job is never taken.
   */
  lemma ClaimStartsIff(events: seq<Event>, p: int, owner: int, g: Setting)
    requires p !in Run(Start(g), events, g).running
    ensures var s := Run(Start(g), events, g);
            var s' := Step(s, Claim(p, owner), g);
            && (p in s'.running <==>
                  (s.job.state.Pending? || s.job.state.Processing?) && Free(Marks(events, g), owner, s.now))
            && (p !in s'.running ==> s' == s)
            && (p in s'.running ==>
                  && s'.running == s.running[p := Claimed(owner, s.job.processed)] && s'.job.state.Processing?
                  && s'.job.lease == Some(Lease(owner, s.now + LEASE_TTL_SECONDS)) && s'.now == s.now
                  && s'.job.processed == s.job.processed && s'.job.total == s.job.total
                  && s'.due == s.due && s'.planners == s.planners)
  {
    hide Run, Marks, Exclusion, Free, LeaseOf;
    LeaseExcludes(events, g);
    FreeMeansNoLiveLease(Marks(events, g), owner, Run(Start(g), events, g).now);
  }

  // ---- What overlapping leases break ---------------------------------------------------------------------

  function Overlap(planner: Planner, last: Event): seq<Event> {
    [Claim(0, 10), Fetch(0), Tick(LEASE_TTL_SECONDS + 1), Claim(1, 11), Fetch(1), Commit(1, planner), last]
  }

  /** Three messages, chunks of two; the first execution outlives its lease holding two of them. */
  function ThreeMessages(): Setting {
    Setting([Message(1, 7, 1), Message(2, 7, 2), Message(3, 7, 3)], 3, 2)
  }

  lemma {:induction false} RunFrom(s: State, e: Event, rest: seq<Event>, g: Setting)
    ensures Run(s, [e] + rest, g) == Run(Step(s, e, g), rest, g)
  {
    hide Step;
    if rest == [] {
      assert [e] + rest == [e] && [e][..0] == [];
      assert Run(s, [e], g) == Step(Run(s, [], g), e, g);
    } else {
      var n := |rest| - 1;
      RunFrom(s, e, rest[..n], g);
      assert ([e] + rest)[..n + 1] == [e] + rest[..n];
    }
  }

  /** The first execution holds two messages when its lease runs out. */
  lemma FirstHolds(rest: seq<Event>) returns (s: State)
    ensures var g := ThreeMessages();
            && s == State(RenderJob(Processing, 0, 3, Some(Lease(10, LEASE_TTL_SECONDS))), map[],
                          map[0 := Fetched(10, 0, g.messages[..2], {})], LEASE_TTL_SECONDS + 1, [])
            && Run(Start(g), [Claim(0, 10), Fetch(0), Tick(LEASE_TTL_SECONDS + 1)] + rest, g) == Run(s, rest, g)
  {
    var g := ThreeMessages();
    var a, b, c := Claim(0, 10), Fetch(0), Tick(LEASE_TTL_SECONDS + 1);
    hide *;
    ThreeFirst(a, b, c, rest);
    RunFrom(Start(g), a, [b] + ([c] + rest), g);
    RunFrom(Step(Start(g), a, g), b, [c] + rest, g);
    var s2 := FirstFetches();
    RunFrom(s2, c, rest, g);
    s := s2.(now := LEASE_TTL_SECONDS + 1);
    Ticks(s2, LEASE_TTL_SECONDS + 1, g);
  }

  lemma ThreeFirst(a: Event, b: Event, c: Event, rest: seq<Event>)
    ensures [a, b, c] + rest == [a] + ([b] + ([c] + rest))
  {
  }

  lemma Ticks(s: State, seconds: nat, g: Setting)
    ensures Step(s, Tick(seconds), g) == s.(now := s.now + seconds)
  {
  }

  lemma FirstFetches() returns (s: State)
    ensures var g := ThreeMessages();
            && s == Step(Step(Start(g), Claim(0, 10), g), Fetch(0), g)
            && s == State(RenderJob(Processing, 0, 3, Some(Lease(10, LEASE_TTL_SECONDS))), map[],
                          map[0 := Fetched(10, 0, g.messages[..2], {})], 0, [])
  {
    var g := ThreeMessages();
    hide Unhandled, PlanRows;
    var s1 := Step(Start(g), Claim(0, 10), g);
    assert s1.running == map[0 := Claimed(10, 0)];
    assert Locked(s1.running, 0) == {};
    AllFree();
    hide Locked;
    s := Step(s1, Fetch(0), g);
    assert s1.due.Keys == {};
    assert s.running[0] == Fetched(10, 0, g.messages[..2], {});
    assert s.running == map[0 := Fetched(10, 0, g.messages[..2], {})];
  }

  /** The second sees the third message only and finishes the job. */
  lemma SecondFinishes(planner: Planner, last: Event) returns (s: State)
    requires Answers(planner)
    ensures var g := ThreeMessages();
            && s.job == RenderJob(Ready, 1, 3, Some(Lease(11, 2 * LEASE_TTL_SECONDS + 1)))
            && s.running == map[0 := Fetched(10, 0, g.messages[..2], {})]
            && s.due.Keys == {3} && s.now == LEASE_TTL_SECONDS + 1
            && Run(Start(g), Overlap(planner, last), g) == Step(s, last, g)
  {
    var g := ThreeMessages();
    var d, e, f := Claim(1, 11), Fetch(1), Commit(1, planner);
    var rest := [d] + ([e] + ([f] + [last]));
    var s3 := FirstHolds(rest);
    assert Overlap(planner, last) == [Claim(0, 10), Fetch(0), Tick(LEASE_TTL_SECONDS + 1)] + rest;
    assert Run(Start(g), Overlap(planner, last), g) == Run(s3, rest, g);
    hide Run;
    var s5 := SecondFetches(s3);
    s := SecondCommits(planner, s5);
    hide Step;
    RunFrom(s3, d, [e] + ([f] + [last]), g);
    RunFrom(Step(s3, d, g), e, [f] + [last], g);
    RunFrom(s5, f, [last], g);
    OneStep(s, last, g);
  }

  lemma SecondFetches(s: State) returns (s': State)
    requires var g := ThreeMessages();
             s == State(RenderJob(Processing, 0, 3, Some(Lease(10, LEASE_TTL_SECONDS))), map[],
                        map[0 := Fetched(10, 0, g.messages[..2], {})], LEASE_TTL_SECONDS + 1, [])
    ensures var g := ThreeMessages();
            && s' == Step(Step(s, Claim(1, 11), g), Fetch(1), g)
            && s' == State(RenderJob(Processing, 0, 3, Some(Lease(11, 2 * LEASE_TTL_SECONDS + 1))), map[],
                           map[0 := Fetched(10, 0, g.messages[..2], {}), 1 := Fetched(11, 0, [g.messages[2]], {1, 2})],
                           LEASE_TTL_SECONDS + 1, [])
  {
    var g := ThreeMessages();
    var held := Fetched(10, 0, g.messages[..2], {});
    assert g.messages[..2] == [Message(1, 7, 1), Message(2, 7, 2)];
    hide Unhandled, PlanRows;
    var s4 := Step(s, Claim(1, 11), g);
    assert s4.running == map[0 := held, 1 := Claimed(11, 0)];
    OthersHeld(s4.running, held);
    AllFree();
    hide Locked;
    s' := Step(s4, Fetch(1), g);
    assert s4.due.Keys == {};
    assert s'.running[1] == Fetched(11, 0, [g.messages[2]], {1, 2});
    assert s'.running == map[0 := held, 1 := Fetched(11, 0, [g.messages[2]], {1, 2})];
  }

  lemma SecondCommits(planner: Planner, s: State) returns (s': State)
    requires Answers(planner)
    requires var g := ThreeMessages();
             s == State(RenderJob(Processing, 0, 3, Some(Lease(11, 2 * LEASE_TTL_SECONDS + 1))), map[],
                        map[0 := Fetched(10, 0, g.messages[..2], {}), 1 := Fetched(11, 0, [g.messages[2]], {1, 2})],
                        LEASE_TTL_SECONDS + 1, [])
    ensures var g := ThreeMessages();
            && s' == Step(s, Commit(1, planner), g)
            && s'.job == RenderJob(Ready, 1, 3, Some(Lease(11, 2 * LEASE_TTL_SECONDS + 1)))
            && s'.running == map[0 := Fetched(10, 0, g.messages[..2], {})]
            && s'.due.Keys == {3} && s'.now == LEASE_TTL_SECONDS + 1
  {
    var g := ThreeMessages();
    OneRowPlanned(planner, g.messages[2]);
    hide PlanRows;
    s' := Step(s, Commit(1, planner), g);
    assert s'.running == map[0 := Fetched(10, 0, g.messages[..2], {})];
  }

  lemma OneStep(s: State, e: Event, g: Setting)
    ensures Run(s, [e], g) == Step(s, e, g)
  {
    assert [e][..0] == [];
    assert Run(s, [], g) == s;
  }

  lemma OthersHeld(running: map<int, Execution>, held: Execution)
    requires held == Fetched(10, 0, [Message(1, 7, 1), Message(2, 7, 2)], {})
    requires running == map[0 := held, 1 := Claimed(11, 0)]
    ensures Locked(running, 1) == {1, 2}
  {
    assert LockedBy(running[0]) == {1, 2} by {
      assert held.rows[0] in held.rows && held.rows[1] in held.rows;
    }
    assert forall id | id in {1, 2} :: id in LockedBy(running[0]) && 0 != 1;
  }

  lemma AllFree()
    ensures var g := ThreeMessages();
            && Unhandled(g.messages, map[], {}) == g.messages && Unhandled(g.messages, map[], {1, 2}) == [g.messages[2]]
            && Take(g.messages, 2) == g.messages[..2] && Take([g.messages[2]], 2) == [g.messages[2]]
  {
    hide Unhandled;
    var a, b, c := Message(1, 7, 1), Message(2, 7, 2), Message(3, 7, 3);
    assert Unhandled([a, b, c], map[], {}) == [a, b, c] by { ThreeUnhandled(map[], {}); }
    assert Unhandled([a, b, c], map[], {1, 2}) == [c] by { ThreeUnhandled(map[], {1, 2}); }
    hide *;

    assert ThreeMessages().messages == [a, b, c];
  }

  /** The list function on three messages, spelled out. */
  lemma ThreeUnhandled(due: map<int, real>, locked: set<int>)
    ensures var a, b, c := Message(1, 7, 1), Message(2, 7, 2), Message(3, 7, 3);
            Unhandled([a, b, c], due, locked)
            == (if 1 in due || 1 in locked then [] else [a]) + (if 2 in due || 2 in locked then [] else [b])
               + (if 3 in due || 3 in locked then [] else [c])
  {
    hide Unhandled;
    var a, b, c := Message(1, 7, 1), Message(2, 7, 2), Message(3, 7, 3);
    UnhandledNone(due, locked);
    assert [a, b, c] == [a] + ([b] + ([c] + []));
    UnhandledHead(a, [b] + ([c] + []), due, locked);
    UnhandledHead(b, [c] + [], due, locked);
    UnhandledHead(c, [], due, locked);
  }

  lemma UnhandledNone(due: map<int, real>, locked: set<int>)
    ensures Unhandled([], due, locked) == []
  {
  }

  lemma UnhandledHead(m: Message, rest: seq<Message>, due: map<int, real>, locked: set<int>)
    ensures Unhandled([m] + rest, due, locked)
            == (if m.id in due || m.id in locked then [] else [m]) + Unhandled(rest, due, locked)
  {
    assert ([m] + rest)[1..] == rest;
  }

  lemma OneRowPlanned(planner: Planner, m: Message)
    requires Answers(planner)
    ensures PlanRows(map[], [m], planner).Success? && PlanRows(map[], [m], planner).value.Keys == {m.id}
  {
    assert [m][..0] == [];
    assert PlanRows(map[], [], planner) == Success(map[]);
  }

  /**
   With overlapping leases READY does not mean done: the execution holding two messages crashes after
   another saw only the third and finished the job. Nothing can claim the job any more, so the two
   are never planned.
   */
  lemma OverlapStrandsMessages(planner: Planner)
    requires Answers(planner)
    ensures var g := ThreeMessages();
            var s := Run(Start(g), Overlap(planner, Crash(0)), g);
            && s.job.state.Ready? && s.running == map[]
            && Remaining(s, g) == g.messages[..2]
            && forall e: Event :: Step(s, e, g).due == s.due && Step(s, e, g).running == map[]
  {
    var g := ThreeMessages();
    var before := SecondFinishes(planner, Crash(0));
    hide Unhandled, Run, PlanRows;
    var s := Step(before, Crash(0), g);
    assert s.running == map[];
    ThreeUnhandled(s.due, {});
    assert 3 in s.due.Keys && 1 !in s.due.Keys && 2 !in s.due.Keys;
    forall e: Event ensures Step(s, e, g).due == s.due && Step(s, e, g).running == map[] {}
  }

  /**
   If it commits instead, every message is planned but the stored count has lost one: each wrote the count it
   read plus its own rows.
   */
  lemma OverlapLosesCount(planner: Planner)
    requires Answers(planner)
    ensures var g := ThreeMessages();
            var s := Run(Start(g), Overlap(planner, Commit(0, planner)), g);
            s.job.state.Ready? && s.due.Keys == {1, 2, 3} && s.job.processed == 2
  {
    var g := ThreeMessages();
    var before := SecondFinishes(planner, Commit(0, planner));
    hide Unhandled, Run;
    var rows := g.messages[..2];
    PlanRowsSucceed(before.due, rows, planner);
    assert rows[..1] == [g.messages[0]] && rows[..1][..0] == [] && rows[1] == g.messages[1];
    assert PlanRows(before.due, rows[..1][..0], planner) == Success(before.due);
    assert PlanRows(before.due, rows[..1], planner).value.Keys == {3, 1};
  }

  // ---- The worker --------------------------------------------------------------------------------

  class RenderTask {
    var job: RenderJob
    var due: map<int, real>

    constructor (total: nat)
      ensures job == RenderJob(Pending, 0, total, None) && due == map[]
    {
      job, due := RenderJob(Pending, 0, total, None), map[];
    }

    /** The claim hands out the stored count. */
    method ClaimJob(owner: int, now: int) returns (e: Option<Execution>)
      modifies this`job
      ensures e.Some? <==>
                (old(job).state.Pending? || old(job).state.Processing?)
                && (old(job).lease.None? || old(job).lease.value.expires < now || old(job).lease.value.owner == owner)
      ensures e.Some? ==>
                && e.value == Claimed(owner, old(job).processed)
                && job == old(job).(state := Processing, lease := Some(Lease(owner, now + LEASE_TTL_SECONDS)))
      ensures e.None? ==> job == old(job)
    {
      if !CanClaim(job.state, job.lease, owner, now) { return None; }
      e := Some(Claimed(owner, job.processed));
      job := job.(state := Processing, lease := Some(Lease(owner, now + LEASE_TTL_SECONDS)));
    }

    /** The locking query: walks the messages in id order, passes over handled and locked ones, stops at `limit`. */
    method FetchRows(e: Execution, messages: seq<Message>, locked: set<int>, limit: nat) returns (x: Execution)
      requires e.Claimed?
      ensures x == Fetched(e.owner, e.processed, Take(Unhandled(messages, due, locked), limit), locked - due.Keys)
    {
      hide Unhandled, Take;
      var rows: seq<Message> := [];
      var i := 0;
      assert messages[0..] == messages;
      while i < |messages| && |rows| < limit
        invariant 0 <= i <= |messages| && |rows| <= limit
        invariant Take(Unhandled(messages, due, locked), limit)
                  == rows + Take(Unhandled(messages[i..], due, locked), limit - |rows|)
      {
        TakeFirst(messages[i..], due, locked, rows, limit);
        assert messages[i..][1..] == messages[i + 1..];
        if messages[i].id !in due && messages[i].id !in locked { rows := rows + [messages[i]]; }
        i := i + 1;
      }
      TakeNone(messages[i..], due, locked, limit - |rows|);
      x := Fetched(e.owner, e.processed, rows, locked - due.Keys);
    }

    /** The commit half of a chunk: plans the rows the execution locked, then moves the job. */
    method RenderChunk(e: Execution, planner: Planner, limit: nat, now: int)
      requires e.Fetched?
      modifies this
      ensures var planned, after := PlanRows(old(due), e.rows, planner), JobAfter(old(job), e, |e.rows|, limit, now);
              if planned.Failure? || after.None? then job == Failing(old(job)) && due == old(due)
              else job == after.value && due == planned.value
    {
      var written := due;
      for i := 0 to |e.rows|
        invariant PlanRows(due, e.rows[..i], planner) == Success(written)
        invariant due == old(due) && job == old(job)
      {
        assert e.rows[..i + 1][..i] == e.rows[..i];
        var at := planner(e.rows[i].mailbox, e.rows[i].ordinal, e.rows[i].id);
        if at.Failure? {
          PlanRowsFailure(due, e.rows, i + 1, planner);
          job := Failing(job);
          return;
        }
        if e.rows[i].id !in written { written := written[e.rows[i].id := at.value]; }
      }
      assert e.rows[..|e.rows|] == e.rows;
      var after := JobAfter(job, e, |e.rows|, limit, now);
      if after.None? {
        job := Failing(job);
        return;
      }
      job, due := after.value, written;
    }
  }

  /** What a query that holds `rows` still takes from the messages ahead, one message on. */
  lemma TakeFirst(ahead: seq<Message>, due: map<int, real>, locked: set<int>, rows: seq<Message>, limit: nat)
    requires ahead != [] && |rows| < limit
    ensures var rows' := if ahead[0].id in due || ahead[0].id in locked then rows else rows + [ahead[0]];
            rows + Take(Unhandled(ahead, due, locked), limit - |rows|)
            == rows' + Take(Unhandled(ahead[1..], due, locked), limit - |rows'|)
  {
    var m, tail := ahead[0], ahead[1..];
    assert ahead == [m] + tail;
    UnhandledHead(m, tail, due, locked);
    hide *;
    var rest := Unhandled(tail, due, locked);
    if m.id in due || m.id in locked {
      assert [] + rest == rest;
    } else {
      Associative(rows, [m], Take(rest, limit - |rows| - 1));
    }
  }

  lemma Associative(a: seq<Message>, b: seq<Message>, c: seq<Message>)
    ensures a + (b + c) == (a + b) + c
  {
  }

  lemma TakeNone(ahead: seq<Message>, due: map<int, real>, locked: set<int>, limit: nat)
    requires ahead == [] || limit == 0
    ensures Take(Unhandled(ahead, due, locked), limit) == []
  {
  }

  lemma {:induction false} PlanRowsFailure(due: map<int, real>, rows: seq<Message>, n: nat, planner: Planner)
    requires n <= |rows| && PlanRows(due, rows[..n], planner).Failure?
    ensures PlanRows(due, rows, planner).Failure?
    decreases |rows|
  {
    if n == |rows| {
      assert rows[..n] == rows;
    } else {
      assert rows[..|rows| - 1][..n] == rows[..n];
      PlanRowsFailure(due, rows[..|rows| - 1], n, planner);
    }
  }
}
