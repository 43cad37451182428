/**
 Audience capture in leased, resumable chunks (workers/campaigns.py, `capture_audience_chunk`), over
 the rows the worker repository reads and writes.

 A task execution claims the job row, then later commits one chunk. Between the two it may crash,
 overrun its lease, or be overtaken by another execution: the model lets any number of executions
 overlap, because the progress writes name the job only and are not guarded by the lease.
 */
module AudienceCapture {
  import opened Arithmetic
  import opened Wrappers
  import opened PlanningRows

  // ---- Rows -------------------------------------------------------------------------------

  /** One lead as `fetch_lead_capture_rows` returns it. */
  datatype Lead = Lead(archived: bool, address: Option<int>, suppressed: bool, revision: int, variables: map<string,
        string>)

  /** What a query made at one moment sees of the leads. */
  type Facts = map<int, Lead>

  /** A candidate after classification, before address-less ones are dropped. */
  datatype Row = Row(lead: int, address: Option<int>, ordinal: int, revision: int,
                     variables: map<string, string>, eligibility: Eligibility)

  function ClassifyMember(lead: Lead): (r: Eligibility)
    ensures r == Excluded("invalid_address") <==> !lead.archived && lead.address.None?
  {
    if lead.archived then Excluded("archived_lead")
    else if lead.address.None? then Excluded("invalid_address")
    else if lead.suppressed then Excluded("suppressed")
    else Accepted
  }

  function CaptureRow(facts: Facts, id: int, ordinal: int): Row {
    if id !in facts then Row(id, None, ordinal, 1, map[], Excluded("invalid_address"))
    else
      var lead := facts[id];
      var eligibility := ClassifyMember(lead);
      Row(id, lead.address, ordinal, lead.revision,
          if eligibility.Accepted? then lead.variables else map[], eligibility)
  }

  /** The member a candidate becomes under `facts`; None when it has no address to store. */
  function MemberOf(facts: Facts, id: int, ordinal: int): (m: Option<Member>)
    ensures m.Some? ==> m.value.lead == id && m.value.ordinal == ordinal
  {
    var r := CaptureRow(facts, id, ordinal);
    if r.address.None? then None
    else Some(Member(r.lead, r.address.value, r.ordinal, r.revision, r.variables, r.eligibility))
  }

  /** The insertable members of a batch whose first candidate has ordinal `offset + 1`. */
  function BatchMembers(facts: Facts, ids: seq<int>, offset: nat): seq<Member> {
    if ids == [] then []
    else
      var i := |ids| - 1;
      BatchMembers(facts, ids[..i], offset) +
      match MemberOf(facts, ids[i], offset + i + 1) case None => [] case Some(m) => [m]
  }

  /** INSERT ... ON CONFLICT DO NOTHING, row after row. */
  function InsertAll(table: set<Member>, rows: seq<Member>): set<Member> {
    if rows == [] then table
    else
      var before := InsertAll(table, rows[..|rows| - 1]);
      var m := rows[|rows| - 1];
      if exists t | t in before :: Clashes(t, m) then before else before + {m}
  }

  // ---- The job, the audience and the running executions -----------------------------------------

  datatype AudienceStatus = Capturing | Captured | CaptureFailed | Abandoned

  datatype Cursor = Cursor(candidates: seq<int>, offset: nat)

  datatype Job = Job(state: JobState, cursor: Option<Cursor>, processed: nat, total: nat, lease: Option<Lease>)

  datatype Tables = Tables(job: Job, status: AudienceStatus, members: set<Member>)

  /** An execution between its claim and its commit, with the cursor it read when it claimed. */
  datatype Execution = Execution(owner: int, cursor: Option<Cursor>)

  predicate Claimable(job: Job, owner: int, now: int) {
    CanClaim(job.state, job.lease, owner, now)
  }

  function Claimed(job: Job, owner: int, now: int): Job {
    job.(state := Processing, lease := Some(Lease(owner, now + LEASE_TTL_SECONDS)))
  }

  /** The cursor an execution works from: its own, or the start of the candidates it resolves. */
  function StartCursor(e: Execution, resolved: seq<int>): Cursor {
    if e.cursor.Some? then e.cursor.value else Cursor(resolved, 0)
  }

  /** The slice of at most `limit` candidates at the cursor. */
  function Batch(c: Cursor, limit: nat): seq<int> {
    var n := |c.candidates|;
    var lo := if c.offset < n then c.offset else n;
    c.candidates[lo..if lo + limit < n then lo + limit else n]
  }

  /** Failing the capture; a completed audience refuses the write and nothing changes. */
  function FailCapture(t: Tables, status: AudienceStatus): Tables {
    if t.status.Capturing? then t.(job := t.job.(state := Failed), status := status) else t
  }

  /**
   One chunk, as committed. The members table accepts rows only while the audience is capturing, a
   completed audience refuses every write, and `processed` may not pass `total`.
   */
  function CommitChunk(t: Tables, e: Execution, facts: Facts, resolved: seq<int>, limit: nat, now: int): Tables {
    var c := StartCursor(e, resolved);
    var batch := Batch(c, limit);
    var rows := BatchMembers(facts, batch, c.offset);
    var offset := c.offset + |batch|;
    var finished := batch == [] || offset >= |c.candidates|;
    if !t.status.Capturing? && (finished || rows != []) then t
    else if offset > t.job.total then FailCapture(t, CaptureFailed)
    else
      var members := InsertAll(t.members, rows);
      if finished then Tables(t.job.(state := Ready, processed := offset), Captured, members)
      else t.(members := members,
              job := t.job.(cursor := Some(Cursor(c.candidates, offset)), processed := offset,
                            lease := Some(Lease(e.owner, now + LEASE_TTL_SECONDS))))
  }

  // ---- Runs ----------------------------------------------------------------------------------

  /** `resolved` is what the execution resolves the selection to; it is read only if no cursor was stored. */
  datatype Event =
    | Claim(process: int, owner: int)
    | Commit(process: int, facts: Facts, resolved: seq<int>)
    | Crash(process: int)
    | Fail(process: int)
    | Abandon(process: int)
    | Tick(seconds: nat)

  /** `seen` is history: what each committed chunk read of the leads. */
  datatype State = State(tables: Tables, running: map<int, Execution>, now: int, seen: set<Facts>)

  /** One event; an event that is not possible in this state changes nothing. */
  function Step(s: State, e: Event, limit: nat): State {
    match e
    case Claim(p, owner) =>
      if p in s.running || !Claimable(s.tables.job, owner, s.now) then s
      else s.(tables := s.tables.(job := Claimed(s.tables.job, owner, s.now)),
              running := s.running[p := Execution(owner, s.tables.job.cursor)])
    case Commit(p, facts, resolved) =>
      if p !in s.running then s
      else s.(tables := CommitChunk(s.tables, s.running[p], facts, resolved, limit, s.now),
              running := s.running - {p},
              seen := s.seen + {facts})
    case Crash(p) => s.(running := s.running - {p})
    case Fail(p) =>
      if p !in s.running then s
      else s.(tables := FailCapture(s.tables, CaptureFailed), running := s.running - {p})
    case Abandon(p) =>
      if p !in s.running then s
      else s.(tables := FailCapture(s.tables, Abandoned), running := s.running - {p})
    case Tick(seconds) => s.(now := s.now + seconds)
  }

  function Run(s: State, events: seq<Event>, limit: nat): State {
    if events == [] then s else Step(Run(s, events[..|events| - 1], limit), events[|events| - 1], limit)
  }

  function Start(total: nat): State {
    State(Tables(Job(Pending, None, 0, total, None), Capturing, {}), map[], 0, {})
  }

  /** The selection is frozen until a cursor is stored: every resolution of the manifest gives `candidates`. */
  ghost predicate Frozen(events: seq<Event>, candidates: seq<int>) {
    forall e | e in events && e.Commit? :: e.resolved == candidates
  }

  ghost predicate Distinct(candidates: seq<int>) {
    forall i, j | 0 <= i < j < |candidates| :: candidates[i] != candidates[j]
  }

  // ---- What every run keeps ----------------------------------------------------------------------

  /** First place of the chunk candidate `i` is in: chunks start at multiples of the batch size. */
  function ChunkStart(i: nat, limit: nat): (start: nat)
    requires limit >= 1
    ensures start <= i
  {
    i - i % limit
  }

  /** The candidate had an address in version `f`, and a row of an earlier candidate already held it. */
  ghost predicate LostTo(f: Facts, m: Member, candidates: seq<int>, limit: nat, i: nat)
    requires i < |candidates| && limit >= 1
  {
    && 1 <= m.ordinal <= i
    && MemberOf(f, candidates[i], i + 1).Some? && MemberOf(f, candidates[i], i + 1).value.address == m.address
    && (m.ordinal <= ChunkStart(i, limit) || MemberOf(f, candidates[m.ordinal - 1], m.ordinal) == Some(m))
  }

  /**
   Candidate `i` has its row, or a chunk found it without an address, or it lost its address to a row of an
   earlier chunk (or to one its own chunk read along with it).
   */
  ghost predicate Handled(members: set<Member>, seen: set<Facts>, candidates: seq<int>, limit: nat, i: nat)
    requires i < |candidates| && limit >= 1
  {
    || (exists m | m in members :: m.ordinal == i + 1)
    || (exists f | f in seen :: MemberOf(f, candidates[i], i + 1).None?)
    || (exists f, m | f in seen && m in members :: LostTo(f, m, candidates, limit, i))
  }

  /** A stored member is its candidate, as some committed chunk saw it. */
  ghost predicate Faithful(m: Member, seen: set<Facts>, candidates: seq<int>) {
    && 1 <= m.ordinal <= |candidates|
    && exists f | f in seen :: MemberOf(f, candidates[m.ordinal - 1], m.ordinal) == Some(m)
  }

  ghost predicate NoClash(members: set<Member>) {
    forall a, b | a in members && b in members && a != b :: !Clashes(a, b)
  }

  ghost predicate CursorOk(c: Option<Cursor>, s: State, candidates: seq<int>, limit: nat)
    requires limit >= 1
  {
    c.Some? ==>
      && c.value.candidates == candidates && c.value.offset <= |candidates| && c.value.offset % limit == 0
      && HandledUpTo(s.tables.members, s.seen, candidates, limit, c.value.offset)
  }

  ghost predicate HandledUpTo(members: set<Member>, seen: set<Facts>, candidates: seq<int>, limit: nat, upTo: nat)
    requires limit >= 1
  {
    forall i: nat | i < |candidates| && i < upTo :: Handled(members, seen, candidates, limit, i)
  }

  ghost predicate MembersOk(members: set<Member>, seen: set<Facts>, candidates: seq<int>) {
    NoClash(members) && forall m | m in members :: Faithful(m, seen, candidates)
  }

  /** Chunks are committed whole and in order: nothing before or beside a stored member is still open. */
  ghost predicate WholeChunks(members: set<Member>, seen: set<Facts>, candidates: seq<int>, limit: nat)
    requires limit >= 1
  {
    forall m | m in members && m.ordinal >= 1 ::
      HandledUpTo(members, seen, candidates, limit, ChunkStart(m.ordinal - 1, limit) + limit)
  }

  ghost predicate Inv(s: State, candidates: seq<int>, limit: nat)
    requires limit >= 1
  {
    && MembersOk(s.tables.members, s.seen, candidates)
    && WholeChunks(s.tables.members, s.seen, candidates, limit)
    && s.tables.job.total == |candidates|
    && CursorOk(s.tables.job.cursor, s, candidates, limit)
    && (forall p | p in s.running :: CursorOk(s.running[p].cursor, s, candidates, limit))
    && (s.tables.status.Captured? <==> s.tables.job.state.Ready?)
    && (s.tables.status.Capturing? <==> s.tables.job.state.Pending? || s.tables.job.state.Processing?)
    && (s.tables.status.Captured? ==> HandledUpTo(s.tables.members, s.seen, candidates, limit, |candidates|))
  }

  lemma ChunkOfPlace(offset: nat, i: nat, limit: nat)
    requires limit >= 1 && offset % limit == 0
    ensures offset <= i < offset + limit ==> ChunkStart(i, limit) == offset
    ensures offset <= i ==> offset <= ChunkStart(i, limit)
  {
    if offset <= i < offset + limit { DivUnique(i, limit, offset / limit, i - offset); }
    if offset <= i {
      QuotientMonotone(offset, i, limit);
    }
  }

  lemma NextChunk(offset: nat, limit: nat)
    requires limit >= 1 && offset % limit == 0
    ensures (offset + limit) % limit == 0
  {
    DivUnique(offset + limit, limit, offset / limit + 1, 0);
  }

  lemma HandledStays(members: set<Member>, members': set<Member>, seen: set<Facts>, seen': set<Facts>,
                     candidates: seq<int>, limit: nat, upTo: nat)
    requires limit >= 1 && members <= members' && seen <= seen'
    requires HandledUpTo(members, seen, candidates, limit, upTo)
    ensures HandledUpTo(members', seen', candidates, limit, upTo)
  {
    hide LostTo, MemberOf;
    forall i: nat | i < |candidates| && i < upTo ensures Handled(members', seen', candidates, limit, i) {
      assert Handled(members, seen, candidates, limit, i);
    }
  }

  lemma CursorStays(c: Option<Cursor>, s: State, s': State, candidates: seq<int>, limit: nat)
    requires limit >= 1 && CursorOk(c, s, candidates, limit)
    requires s.tables.members <= s'.tables.members && s.seen <= s'.seen
    ensures CursorOk(c, s', candidates, limit)
  {
    if c.Some? {
      HandledStays(s.tables.members, s'.tables.members, s.seen, s'.seen, candidates, limit, c.value.offset);
    }
  }

  /** Inserting only adds rows, and every row offered ends up stored or clashing with a stored row. */
  lemma {:induction false} InsertAllFacts(table: set<Member>, rows: seq<Member>)
    ensures table <= InsertAll(table, rows)
    ensures NoClash(table) ==> NoClash(InsertAll(table, rows))
    ensures forall m | m in InsertAll(table, rows) :: m in table || m in rows
    ensures forall k: nat | k < |rows| :: StoredOrRefused(InsertAll(table, rows), table, rows, k)
  {
    if rows != [] {
      var n := |rows| - 1;
      var init, m := rows[..n], rows[n];
      InsertAllFacts(table, init);
      assert rows == init + [m];
      var before, after := InsertAll(table, init), InsertAll(table, rows);
      forall k: nat | k < |rows| ensures StoredOrRefused(after, table, rows, k) {
        if k < n {
          assert StoredOrRefused(before, table, init, k);
          assert init[..k] == rows[..k] && init[k] == rows[k];
        } else if !exists t | t in before :: Clashes(t, m) {
          assert m in after;
        }
      }
    }
  }

  /** Row `k` is stored, or a stored row of the table or offered before it has its lead, address or ordinal. */
  ghost predicate StoredOrRefused(stored: set<Member>, table: set<Member>, rows: seq<Member>, k: nat)
    requires k < |rows|
  {
    exists t | t in stored :: t == rows[k] || (Clashes(t, rows[k]) && (t in table || t in rows[..k]))
  }

  ghost predicate Ascending(rows: seq<Member>) {
    forall a, b | 0 <= a < b < |rows| :: rows[a].ordinal < rows[b].ordinal
  }

  /** Every candidate of the batch that has an address is among the rows. */
  ghost predicate HasAddressed(facts: Facts, ids: seq<int>, offset: nat, rows: seq<Member>) {
    forall k: nat | k < |ids| && MemberOf(facts, ids[k], offset + k + 1).Some? ::
      MemberOf(facts, ids[k], offset + k + 1).value in rows
  }

  /** Every row is the candidate of the batch that its ordinal names. */
  ghost predicate OfBatch(facts: Facts, ids: seq<int>, offset: nat, rows: seq<Member>) {
    forall m | m in rows ::
      offset < m.ordinal <= offset + |ids| && MemberOf(facts, ids[m.ordinal - offset - 1], m.ordinal) == Some(m)
  }

  lemma {:induction false} BatchMembersFacts(facts: Facts, ids: seq<int>, offset: nat)
    ensures HasAddressed(facts, ids, offset, BatchMembers(facts, ids, offset))
    ensures OfBatch(facts, ids, offset, BatchMembers(facts, ids, offset))
    ensures Ascending(BatchMembers(facts, ids, offset))
  {
    if ids != [] {
      var n := |ids| - 1;
      BatchMembersFacts(facts, ids[..n], offset);
      var init := BatchMembers(facts, ids[..n], offset);
      var last := MemberOf(facts, ids[n], offset + n + 1);
      hide MemberOf, HasAddressed, OfBatch, Ascending;
      BatchOneMore(facts, ids, offset, init, last);
      if last.Some? {
        assert forall r | r in init :: r.ordinal < last.value.ordinal by {
          OrdinalsInBatch(facts, ids[..n], offset, init);
        }
        AscendingOneMore(init, last.value);
      } else {
        assert init + [] == init;
      }
    }
  }

  lemma AscendingOneMore(rows: seq<Member>, m: Member)
    requires Ascending(rows) && forall r | r in rows :: r.ordinal < m.ordinal
    ensures Ascending(rows + [m])
  {
  }

  lemma OrdinalsInBatch(facts: Facts, ids: seq<int>, offset: nat, rows: seq<Member>)
    requires OfBatch(facts, ids, offset, rows)
    ensures forall r | r in rows :: r.ordinal <= offset + |ids|
  {
    hide MemberOf;
  }

  lemma BatchOneMore(facts: Facts, ids: seq<int>, offset: nat, init: seq<Member>, last: Option<Member>)
    requires ids != [] && last == MemberOf(facts, ids[|ids| - 1], offset + |ids|)
    requires HasAddressed(facts, ids[..|ids| - 1], offset, init) && OfBatch(facts, ids[..|ids| - 1], offset, init)
    ensures var rows := init + match last case None => [] case Some(m) => [m];
            HasAddressed(facts, ids, offset, rows) && OfBatch(facts, ids, offset, rows)
  {
    hide MemberOf;
    var n := |ids| - 1;
    var rows := init + match last case None => [] case Some(m) => [m];
    forall k: nat | k < |ids| && MemberOf(facts, ids[k], offset + k + 1).Some?
      ensures MemberOf(facts, ids[k], offset + k + 1).value in rows
    {
      if k < n { assert ids[..n][k] == ids[k]; }
    }
    forall m | m in rows
      ensures offset < m.ordinal <= offset + |ids| && MemberOf(facts, ids[m.ordinal - offset - 1], m.ordinal) == Some(m)
    {
      if m in init { assert ids[..n][m.ordinal - offset - 1] == ids[m.ordinal - offset - 1]; }
    }
  }

  /** Storing a chunk of the frozen candidates keeps every member faithful and handles the whole chunk. */
  lemma StoreBatch(members: set<Member>, seen: set<Facts>, candidates: seq<int>, limit: nat, facts: Facts, offset: nat,
        upTo: nat)
    requires Distinct(candidates) && facts in seen && limit >= 1 && offset % limit == 0
    requires offset <= |candidates| && upTo == if offset + limit < |candidates| then offset + limit else |candidates|
    requires MembersOk(members, seen, candidates) && WholeChunks(members, seen, candidates, limit)
    requires HandledUpTo(members, seen, candidates, limit, offset)
    ensures var members' := InsertAll(members, BatchMembers(facts, candidates[offset..upTo], offset));
            && members <= members' && MembersOk(members', seen, candidates)
            && WholeChunks(members', seen, candidates, limit)
            && HandledUpTo(members', seen, candidates, limit, offset + limit)
  {
    hide MemberOf, BatchMembers, InsertAll, Handled, HandledUpTo, ChunkStart, StoredOrRefused;
    var ids := candidates[offset..upTo];
    var rows := BatchMembers(facts, ids, offset);
    BatchMembersFacts(facts, ids, offset);
    InsertAllFacts(members, rows);
    var members' := InsertAll(members, rows);
    forall m | m in members' ensures Faithful(m, seen, candidates) {
      if m in rows { assert ids[m.ordinal - offset - 1] == candidates[m.ordinal - 1]; }
    }
    ChunkHandled(members, members', rows, seen, candidates, limit, facts, offset, upTo);
    forall m | m in members' && m.ordinal >= 1
      ensures HandledUpTo(members', seen, candidates, limit, ChunkStart(m.ordinal - 1, limit) + limit)
    {
      if m in members {
        HandledStays(members, members', seen, seen, candidates, limit, ChunkStart(m.ordinal - 1, limit) + limit);
      } else {
        ChunkOfPlace(offset, m.ordinal - 1, limit);
      }
    }
  }

  lemma ChunkHandled(members: set<Member>, members': set<Member>, rows: seq<Member>, seen: set<Facts>,
        candidates: seq<int>, limit: nat, facts: Facts, offset: nat, upTo: nat)
    requires Distinct(candidates) && facts in seen && limit >= 1 && offset % limit == 0
    requires offset <= |candidates| && upTo == if offset + limit < |candidates| then offset + limit else |candidates|
    requires MembersOk(members, seen, candidates) && WholeChunks(members, seen, candidates, limit)
    requires HandledUpTo(members, seen, candidates, limit, offset)
    requires rows == BatchMembers(facts, candidates[offset..upTo], offset)
    requires members <= members' && MembersOk(members', seen, candidates)
    requires forall k: nat | k < |rows| :: StoredOrRefused(members', members, rows, k)
    ensures HandledUpTo(members', seen, candidates, limit, offset + limit)
  {
    hide MemberOf, BatchMembers, Handled, ChunkStart, StoredOrRefused, LostTo, WholeChunks;
    HandledStays(members, members', seen, seen, candidates, limit, offset);
    var ids := candidates[offset..upTo];
    BatchMembersFacts(facts, ids, offset);
    forall i: nat | offset <= i < |candidates| && i < offset + limit
      ensures Handled(members', seen, candidates, limit, i)
    {
      assert ids[i - offset] == candidates[i];
      if MemberOf(facts, candidates[i], i + 1).Some? {
        var k: nat :| k < |rows| && rows[k] == MemberOf(facts, candidates[i], i + 1).value;
        assert StoredOrRefused(members', members, rows, k);
        StoredOrLost(members, members', rows, seen, candidates, limit, facts, offset, k, i);
      } else {
        NoAddress(members', seen, candidates, limit, facts, i);
      }
    }
  }

  lemma NoAddress(members: set<Member>, seen: set<Facts>, candidates: seq<int>, limit: nat, facts: Facts, i: nat)
    requires limit >= 1 && i < |candidates| && facts in seen && MemberOf(facts, candidates[i], i + 1).None?
    ensures Handled(members, seen, candidates, limit, i)
  {
  }

  lemma StoredOrLost(members: set<Member>, members': set<Member>, rows: seq<Member>, seen: set<Facts>,
        candidates: seq<int>, limit: nat, facts: Facts, offset: nat, k: nat, i: nat)
    requires Distinct(candidates) && facts in seen && limit >= 1 && offset % limit == 0
    requires offset <= i < |candidates| && i < offset + limit && k < |rows|
    requires MembersOk(members, seen, candidates) && WholeChunks(members, seen, candidates, limit)
    requires members <= members' && MembersOk(members', seen, candidates)
    requires Ascending(rows)
    requires forall m | m in rows ::
             1 <= m.ordinal <= |candidates| && MemberOf(facts, candidates[m.ordinal - 1], m.ordinal) == Some(m)
    requires rows[k].ordinal == i + 1 && StoredOrRefused(members', members, rows, k)
    ensures Handled(members', seen, candidates, limit, i)
  {
    hide MemberOf, ChunkStart, HandledUpTo;
    var r := rows[k];
    assert MemberOf(facts, candidates[i], i + 1) == Some(r) by { assert r in rows; }
    var t :| t in members' && (t == r || (Clashes(t, r) && (t in members || t in rows[..k])));
    assert Faithful(t, seen, candidates);
    ChunkOfPlace(offset, i, limit);
    if t.ordinal != i + 1 {
      if t in members && t.ordinal > offset {
        ChunkOfPlace(offset, t.ordinal - 1, limit);
        HandledStays(members, members', seen, seen, candidates, limit, ChunkStart(t.ordinal - 1, limit) + limit);
        HandledAt(members', seen, candidates, limit, ChunkStart(t.ordinal - 1, limit) + limit, i);
      } else {
        assert LostTo(facts, t, candidates, limit, i);
      }
    }
  }

  lemma HandledAt(members: set<Member>, seen: set<Facts>, candidates: seq<int>, limit: nat, upTo: nat, i: nat)
    requires limit >= 1 && i < |candidates| && i < upTo && HandledUpTo(members, seen, candidates, limit, upTo)
    ensures Handled(members, seen, candidates, limit, i)
  {
  }

  lemma BatchIsSlice(candidates: seq<int>, offset: nat, limit: nat)
    requires offset <= |candidates|
    ensures var upTo := if offset + limit < |candidates| then offset + limit else |candidates|;
            Batch(Cursor(candidates, offset), limit) == candidates[offset..upTo]
  {
  }

  lemma CommitKeepsInv(s: State, p: int, facts: Facts, candidates: seq<int>, limit: nat)
    requires limit >= 1 && Inv(s, candidates, limit) && Distinct(candidates) && p in s.running
    ensures Inv(Step(s, Commit(p, facts, candidates), limit), candidates, limit)
  {
    hide MemberOf, BatchMembers, InsertAll, Batch, HandledUpTo, ChunkStart, WholeChunks;
    var s' := Step(s, Commit(p, facts, candidates), limit);
    var c := StartCursor(s.running[p], candidates);
    BatchIsSlice(candidates, c.offset, limit);
    var upTo := c.offset + |Batch(c, limit)|;
    SeenStays(s.tables.members, s.seen, s'.seen, candidates, limit);
    HandledStart(s.tables.members, s'.seen, candidates, limit);
    if c.offset != 0 { HandledStays(s.tables.members, s.tables.members, s.seen, s'.seen, candidates, limit, c.offset); }
    StoreBatch(s.tables.members, s'.seen, candidates, limit, facts, c.offset, upTo);
    NextChunk(c.offset, limit);
    assert s.tables.members <= s'.tables.members;
    CursorStays(s.tables.job.cursor, s, s', candidates, limit);
    forall q | q in s'.running ensures CursorOk(s'.running[q].cursor, s', candidates, limit) {
      CursorStays(s.running[q].cursor, s, s', candidates, limit);
    }
    if s.tables.status.Captured? {
      HandledStays(s.tables.members, s'.tables.members, s.seen, s'.seen, candidates, limit, |candidates|);
    }
    if c.offset + limit >= |candidates| {
      HandledAll(InsertAll(s.tables.members, BatchMembers(facts, candidates[c.offset..upTo], c.offset)), s'.seen,
                 candidates, limit, c.offset + limit);
    }
  }

  lemma HandledStart(members: set<Member>, seen: set<Facts>, candidates: seq<int>, limit: nat)
    requires limit >= 1
    ensures HandledUpTo(members, seen, candidates, limit, 0)
  {
  }

  lemma HandledAll(members: set<Member>, seen: set<Facts>, candidates: seq<int>, limit: nat, upTo: nat)
    requires limit >= 1 && upTo >= |candidates| && HandledUpTo(members, seen, candidates, limit, upTo)
    ensures HandledUpTo(members, seen, candidates, limit, |candidates|)
  {
    hide Handled;
  }

  lemma SeenStays(members: set<Member>, seen: set<Facts>, seen': set<Facts>, candidates: seq<int>, limit: nat)
    requires limit >= 1 && seen <= seen' && MembersOk(members, seen, candidates)
    requires WholeChunks(members, seen, candidates, limit)
    ensures MembersOk(members, seen', candidates) && WholeChunks(members, seen', candidates, limit)
  {
    hide HandledUpTo, ChunkStart, MemberOf;
    forall m | m in members ensures Faithful(m, seen', candidates) {
      assert Faithful(m, seen, candidates);
    }
    forall m | m in members && m.ordinal >= 1
      ensures HandledUpTo(members, seen', candidates, limit, ChunkStart(m.ordinal - 1, limit) + limit)
    {
      HandledStays(members, members, seen, seen', candidates, limit, ChunkStart(m.ordinal - 1, limit) + limit);
    }
  }

  lemma StepKeepsInv(s: State, e: Event, candidates: seq<int>, limit: nat)
    requires limit >= 1 && Inv(s, candidates, limit) && Distinct(candidates)
    requires e.Commit? ==> e.resolved == candidates
    ensures Inv(Step(s, e, limit), candidates, limit)
  {
    hide HandledUpTo, ChunkStart, WholeChunks, MembersOk, CommitChunk;
    var s' := Step(s, e, limit);
    if e.Commit? {
      if e.process in s.running { CommitKeepsInv(s, e.process, e.facts, candidates, limit); }
    } else {
      CursorStays(s.tables.job.cursor, s, s', candidates, limit);
      forall q | q in s.running ensures CursorOk(s.running[q].cursor, s', candidates, limit) {
        CursorStays(s.running[q].cursor, s, s', candidates, limit);
      }
    }
  }

  lemma {:induction false} RunKeepsInv(events: seq<Event>, candidates: seq<int>, limit: nat)
    requires Distinct(candidates) && limit >= 1 && Frozen(events, candidates)
    ensures Inv(Run(Start(|candidates|), events, limit), candidates, limit)
  {
    if events != [] {
      var init := events[..|events| - 1];
      RunKeepsInv(init, candidates, limit);
      StepKeepsInv(Run(Start(|candidates|), init, limit), events[|events| - 1], candidates, limit);
    }
  }

  // ---- Main results ----------------------------------------------------------------------------

  /**
   Every run, with any overlap of executions, crashes, replays and lead edits between chunks: a
   completed audience holds at most one row per candidate, each row is that candidate as some
   committed chunk saw it, and a candidate without a row was seen without an address or lost it to
   another row.
   */
  lemma CompletedCaptureIsFaithful(events: seq<Event>, candidates: seq<int>, limit: nat)
    requires Distinct(candidates) && limit >= 1 && Frozen(events, candidates)
    ensures var s := Run(Start(|candidates|), events, limit);
            && NoClash(s.tables.members)
            && (forall m | m in s.tables.members :: Faithful(m, s.seen, candidates))
            && (s.tables.status.Captured? ==> HandledUpTo(s.tables.members, s.seen, candidates, limit, |candidates|))
  {
    RunKeepsInv(events, candidates, limit);
  }

  /** The stored row says of its lead what this version says, and nothing of an excluded lead's variables. */
  ghost predicate SeenAs(m: Member, f: Facts) {
    && m.lead in f
    && var lead := f[m.lead];
       && lead.address == Some(m.address) && m.revision == lead.revision
       && (m.eligibility.Accepted? <==> !lead.archived && !lead.suppressed)
       && (m.eligibility == Excluded("archived_lead") <==> lead.archived)
       && (m.eligibility == Excluded("suppressed") <==> !lead.archived && lead.suppressed)
       && m.variables == if m.eligibility.Accepted? then lead.variables else map[]
  }

  predicate HasAddress(f: Facts, id: int) { id in f && f[id].address.Some? }

  /** Exactly which row a candidate gets under one version of the leads. */
  lemma MemberOfIff(f: Facts, id: int, ordinal: int, m: Member)
    ensures MemberOf(f, id, ordinal) == Some(m) <==> m.lead == id && m.ordinal == ordinal && SeenAs(m, f)
    ensures MemberOf(f, id, ordinal).Some? <==> HasAddress(f, id)
  {
  }

  /** The candidate has its row, or was seen without an address, or with one that an earlier candidate's row holds. */
  ghost predicate RowOrReason(members: set<Member>, seen: set<Facts>, candidates: seq<int>, i: nat)
    requires i < |candidates|
  {
    || (exists m | m in members :: m.ordinal == i + 1)
    || (exists f | f in seen :: !HasAddress(f, candidates[i]))
    || (exists f: Facts, m: Member | f in seen && m in members ::
          m.ordinal <= i && HasAddress(f, candidates[i]) && f[candidates[i]].address == Some(m.address))
  }

  /**
   Exactly the candidates of the batch that have an address, in order, each at its place and as this version
   shows it.
   */
  ghost predicate BatchAsSeen(facts: Facts, ids: seq<int>, offset: nat, rows: seq<Member>) {
    && Ascending(rows)
    && (forall m | m in rows ::
          offset < m.ordinal <= offset + |ids| && m.lead == ids[m.ordinal - offset - 1] && SeenAs(m, facts))
    && forall k: nat | k < |ids| && HasAddress(facts, ids[k]) :: exists m | m in rows :: m.ordinal == offset + k + 1
  }

  lemma BatchIsAsSeen(facts: Facts, ids: seq<int>, offset: nat)
    ensures BatchAsSeen(facts, ids, offset, BatchMembers(facts, ids, offset))
  {
    hide MemberOf, SeenAs, BatchMembers, HasAddress;
    BatchMembersFacts(facts, ids, offset);
    var rows := BatchMembers(facts, ids, offset);
    forall m | m in rows ensures m.lead == ids[m.ordinal - offset - 1] && SeenAs(m, facts) {
      MemberOfIff(facts, ids[m.ordinal - offset - 1], m.ordinal, m);
    }
    forall k: nat | k < |ids| && HasAddress(facts, ids[k]) ensures exists m | m in rows :: m.ordinal == offset + k + 1 {
      MemberOfIff(facts, ids[k], offset + k + 1, Member(0, 0, 0, 0, map[], Accepted));
      assert MemberOf(facts, ids[k], offset + k + 1).value in rows;
    }
  }

  /**
   What is stored of whom, in the words of the leads and over every run: each row is a candidate's, at its place
   in the list, and some committed chunk saw that lead with just this address, revision and standing. At
   completion a candidate without a row has a reason.
   */
  lemma StoredAsSeen(events: seq<Event>, candidates: seq<int>, limit: nat)
    requires Distinct(candidates) && limit >= 1 && Frozen(events, candidates)
    ensures var s := Run(Start(|candidates|), events, limit);
            && (forall m | m in s.tables.members ::
                  && 1 <= m.ordinal <= |candidates| && m.lead == candidates[m.ordinal - 1]
                  && exists f | f in s.seen :: SeenAs(m, f))
            && (s.tables.status.Captured? ==> forall i: nat | i < |candidates| ::
                  RowOrReason(s.tables.members, s.seen, candidates, i))
  {
    hide Run, RowOrReason, Handled;
    CompletedCaptureIsFaithful(events, candidates, limit);
    var s := Run(Start(|candidates|), events, limit);
    forall m | m in s.tables.members
      ensures 1 <= m.ordinal <= |candidates| && m.lead == candidates[m.ordinal - 1]
      ensures exists f | f in s.seen :: SeenAs(m, f)
    {
      assert Faithful(m, s.seen, candidates);
      var f :| f in s.seen && MemberOf(f, candidates[m.ordinal - 1], m.ordinal) == Some(m);
      MemberOfIff(f, candidates[m.ordinal - 1], m.ordinal, m);
    }
    if s.tables.status.Captured? {
      forall i: nat | i < |candidates| ensures RowOrReason(s.tables.members, s.seen, candidates, i) {
        assert Handled(s.tables.members, s.seen, candidates, limit, i);
        MissingReason(s.tables.members, s.seen, candidates, limit, i);
      }
    }
  }

  lemma MissingReason(members: set<Member>, seen: set<Facts>, candidates: seq<int>, limit: nat, i: nat)
    requires limit >= 1 && i < |candidates| && Handled(members, seen, candidates, limit, i)
    ensures RowOrReason(members, seen, candidates, i)
  {
    hide MemberOf, SeenAs, ChunkStart;
    if exists f :: f in seen && MemberOf(f, candidates[i], i + 1).None? {
      var f :| f in seen && MemberOf(f, candidates[i], i + 1).None?;
      MemberOfIff(f, candidates[i], i + 1, Member(0, 0, 0, 0, map[], Accepted));
    } else if exists f, m :: f in seen && m in members && LostTo(f, m, candidates, limit, i) {
      var f, m :| f in seen && m in members && LostTo(f, m, candidates, limit, i);
      AddressOf(f, candidates[i], i + 1);
    }
  }

  lemma AddressOf(f: Facts, id: int, ordinal: int)
    requires MemberOf(f, id, ordinal).Some?
    ensures HasAddress(f, id) && f[id].address == Some(MemberOf(f, id, ordinal).value.address)
  {
  }

  /** One moment's leads: two leads never share an address. */
  ghost predicate OwnAddresses(facts: Facts) {
    forall a, b | a in facts && b in facts && a != b && facts[a].address.Some? :: facts[a].address != facts[b].address
  }

  /** One pass over the frozen list. */
  ghost function OnePass(candidates: seq<int>, facts: Facts): set<Member> {
    set i: nat | i < |candidates| && MemberOf(facts, candidates[i], i + 1).Some? ::
      MemberOf(facts, candidates[i], i + 1).value
  }

  /** The leads did not change under the capture. */
  ghost predicate Unchanged(events: seq<Event>, facts: Facts) {
    forall e | e in events && e.Commit? :: e.facts == facts
  }

  lemma {:induction false} SeenOnly(events: seq<Event>, facts: Facts, total: nat, limit: nat)
    requires Unchanged(events, facts)
    ensures Run(Start(total), events, limit).seen <= {facts}
  {
    if events != [] { SeenOnly(events[..|events| - 1], facts, total, limit); }
  }

  /** Under one moment's leads the address names the lead. */
  lemma AddressOwner(facts: Facts, a: Member, b: Member)
    requires OwnAddresses(facts) && a.address == b.address
    requires MemberOf(facts, a.lead, a.ordinal) == Some(a) && MemberOf(facts, b.lead, b.ordinal) == Some(b)
    ensures a.lead == b.lead
  {
    assert a.lead in facts && b.lead in facts;
  }

  /**
   With leads that do not change meanwhile, chunks, crashes, overlaps and replays cannot be told from
   one pass: at completion the stored members are exactly that pass, and before it a part of it.
   */
  lemma CaptureRefinesOnePass(events: seq<Event>, candidates: seq<int>, facts: Facts, limit: nat)
    requires Distinct(candidates) && limit >= 1 && Frozen(events, candidates)
    requires Unchanged(events, facts) && OwnAddresses(facts)
    ensures var t := Run(Start(|candidates|), events, limit).tables;
            && t.members <= OnePass(candidates, facts)
            && (t.status.Captured? ==> t.members == OnePass(candidates, facts))
  {
    hide *;
    RunKeepsInv(events, candidates, limit);
    SeenOnly(events, facts, |candidates|, limit);
    CompletedCaptureIsFaithful(events, candidates, limit);
    var s := Run(Start(|candidates|), events, limit);
    StoredIsPartOfOnePass(s.tables.members, s.seen, candidates, facts);
    if s.tables.status.Captured? {
      AllHandledIsOnePass(s.tables.members, s.seen, candidates, limit, facts);
    }
  }

  lemma StoredIsPartOfOnePass(members: set<Member>, seen: set<Facts>, candidates: seq<int>, facts: Facts)
    requires seen <= {facts} && forall m | m in members :: Faithful(m, seen, candidates)
    ensures members <= OnePass(candidates, facts)
  {
    hide MemberOf;
    forall m | m in members ensures m in OnePass(candidates, facts) {
      assert Faithful(m, seen, candidates);
      var i: nat := m.ordinal - 1;
      assert MemberOf(facts, candidates[i], i + 1) == Some(m);
    }
  }

  lemma AllHandledIsOnePass(members: set<Member>, seen: set<Facts>, candidates: seq<int>, limit: nat, facts: Facts)
    requires Distinct(candidates) && limit >= 1 && seen <= {facts} && OwnAddresses(facts)
    requires forall m | m in members :: Faithful(m, seen, candidates)
    requires HandledUpTo(members, seen, candidates, limit, |candidates|)
    ensures OnePass(candidates, facts) <= members
  {
    hide MemberOf, OwnAddresses;
    forall m | m in OnePass(candidates, facts) ensures m in members {
      var i: nat :| i < |candidates| && MemberOf(facts, candidates[i], i + 1) == Some(m);
      HandledMeansStored(members, seen, candidates, limit, facts, i);
    }
  }

  /** If only one version was seen, a handled candidate with an address has its row. */
  lemma HandledMeansStored(members: set<Member>, seen: set<Facts>, candidates: seq<int>, limit: nat, facts: Facts,
        i: nat)
    requires Distinct(candidates) && limit >= 1 && seen <= {facts} && OwnAddresses(facts)
    requires forall m | m in members :: Faithful(m, seen, candidates)
    requires i < |candidates| && Handled(members, seen, candidates, limit, i)
    requires MemberOf(facts, candidates[i], i + 1).Some?
    ensures MemberOf(facts, candidates[i], i + 1).value in members
  {
    hide MemberOf, OwnAddresses, ChunkStart;
    var m := MemberOf(facts, candidates[i], i + 1).value;
    var t :| t in members && (t.ordinal == i + 1 || t.address == m.address);
    assert Faithful(t, seen, candidates);
    if t.ordinal != i + 1 { AddressOwner(facts, t, m); }
  }

  // ---- The exclusions breakdown -------------------------------------------------------------------

  ghost function WithReason(members: set<Member>, reason: string): set<Member> {
    set m | m in members && m.eligibility == Excluded(reason)
  }

  ghost function AcceptedOf(members: set<Member>): set<Member> {
    set m | m in members && m.eligibility.Accepted?
  }

  /** The residual of `get_audience_exclusions`. */
  function InvalidAddressEstimate(totalCandidates: int, accepted: int, archivedLead: int, suppressed: int): (r: int)
    ensures r >= 0 && (r > 0 ==> r + accepted + archivedLead + suppressed == totalCandidates)
    ensures accepted + archivedLead + suppressed <= totalCandidates ==>
              r + accepted + archivedLead + suppressed == totalCandidates
  {
    var residual := totalCandidates - accepted - (archivedLead + suppressed);
    if residual < 0 then 0 else residual
  }

  /** Candidates of one pass that have no address under `facts`. */
  ghost function AddressLess(candidates: seq<int>, facts: Facts): set<nat> {
    set i: nat | i < |candidates| && !HasAddress(facts, candidates[i])
  }

  lemma OnePassLast(candidates: seq<int>, facts: Facts)
    requires candidates != []
    ensures var n := |candidates| - 1;
            var last := MemberOf(facts, candidates[n], n + 1);
            OnePass(candidates, facts) == OnePass(candidates[..n], facts) + (if last.Some? then {last.value} else {})
  {
    hide MemberOf;
    var n := |candidates| - 1;
    forall m | m in OnePass(candidates[..n], facts) ensures m in OnePass(candidates, facts) {
      var i: nat :| i < n && MemberOf(facts, candidates[..n][i], i + 1) == Some(m);
      assert MemberOf(facts, candidates[i], i + 1) == Some(m);
    }
    forall m | m in OnePass(candidates, facts) && MemberOf(facts, candidates[n], n + 1) != Some(m)
      ensures m in OnePass(candidates[..n], facts)
    {
      var i: nat :| i <= n && MemberOf(facts, candidates[i], i + 1) == Some(m);
      assert MemberOf(facts, candidates[..n][i], i + 1) == Some(m);
    }
  }

  lemma AddressLessLast(candidates: seq<int>, facts: Facts)
    requires candidates != []
    ensures var n: nat := |candidates| - 1;
            AddressLess(candidates, facts)
            == AddressLess(candidates[..n], facts) + if MemberOf(facts, candidates[n], n + 1).None? then {n} else {}
  {
    var n := |candidates| - 1;
    MemberOfIff(facts, candidates[n], n + 1, Member(0, 0, 0, 0, map[], Accepted));
    hide MemberOf, HasAddress;
  }

  lemma {:induction false} OnePassSize(candidates: seq<int>, facts: Facts)
    ensures |OnePass(candidates, facts)| + |AddressLess(candidates, facts)| == |candidates|
    ensures forall m | m in OnePass(candidates, facts) :: 1 <= m.ordinal <= |candidates|
    ensures forall i | i in AddressLess(candidates, facts) :: i < |candidates|
  {
    hide MemberOf;
    if candidates == [] {
      assert OnePass(candidates, facts) == {} && AddressLess(candidates, facts) == {};
    } else {
      OnePassSize(candidates[..|candidates| - 1], facts);
      OnePassLast(candidates, facts);
      AddressLessLast(candidates, facts);
      hide OnePass, AddressLess;
    }
  }

  /** Stored members are accepted or excluded for one of the two reasons a stored row can have. */
  lemma StoredReasons(members: set<Member>, seen: set<Facts>, candidates: seq<int>)
    requires MembersOk(members, seen, candidates)
    ensures |members| == |AcceptedOf(members)| + |WithReason(members, "archived_lead")|
            + |WithReason(members, "suppressed")|
  {
    var a, r, x := AcceptedOf(members), WithReason(members, "archived_lead"), WithReason(members, "suppressed");
    forall m | m in members ensures m in a || m in r || m in x {
      assert Faithful(m, seen, candidates);
    }
    assert members == a + r + x;
    assert a !! r && (a + r) !! x;
  }

  /**
   The estimate shown to users is exactly the number of candidates without an address, for leads that did not
   change.
   */
  lemma EstimateIsAddressLess(events: seq<Event>, candidates: seq<int>, facts: Facts, limit: nat)
    requires Distinct(candidates) && limit >= 1 && Frozen(events, candidates)
    requires Unchanged(events, facts) && OwnAddresses(facts)
    requires Run(Start(|candidates|), events, limit).tables.status.Captured?
    ensures var t := Run(Start(|candidates|), events, limit).tables;
            InvalidAddressEstimate(t.job.total, |AcceptedOf(t.members)|, |WithReason(t.members, "archived_lead")|,
                                   |WithReason(t.members, "suppressed")|)
            == |AddressLess(candidates, facts)|
  {
    RunKeepsInv(events, candidates, limit);
    CaptureRefinesOnePass(events, candidates, facts, limit);
    var s := Run(Start(|candidates|), events, limit);
    StoredReasons(s.tables.members, s.seen, candidates);
    OnePassSize(candidates, facts);
  }

  ghost predicate HasRow(members: set<Member>, i: nat) {
    exists m | m in members :: m.ordinal == i + 1
  }

  /** Candidates without a stored row. */
  ghost function Rowless(members: set<Member>, n: nat): set<nat> {
    set i: nat | i < n && !HasRow(members, i)
  }

  lemma WithoutLastRow(members: set<Member>, m: Member, last: nat)
    requires NoClash(members) && m in members && m.ordinal == last + 1
    ensures Rowless(members, last + 1) == Rowless(members - {m}, last)
  {
    var rest := members - {m};
    forall i: nat | i < last ensures HasRow(members, i) <==> HasRow(rest, i) {
      if x :| x in members && x.ordinal == i + 1 { assert x in rest; }
    }
    assert HasRow(members, last);
    hide HasRow;
  }

  lemma NoLastRow(members: set<Member>, last: nat)
    requires !HasRow(members, last)
    ensures Rowless(members, last + 1) == Rowless(members, last) + {last}
  {
    hide HasRow;
  }

  lemma {:induction false} RowlessSize(members: set<Member>, n: nat)
    requires NoClash(members) && forall m | m in members :: 1 <= m.ordinal <= n
    ensures |Rowless(members, n)| + |members| == n
  {
    if n == 0 {
      assert members == {} && Rowless(members, n) == {};
    } else {
      var last: nat := n - 1;
      if m :| m in members && m.ordinal == n {
        RowlessSize(members - {m}, last);
        WithoutLastRow(members, m, last);
      } else {
        RowlessSize(members, last);
        NoLastRow(members, last);
        assert last !in Rowless(members, last);
      }
    }
  }

  /** Over every run, whatever becomes of the leads: the estimate is the number of candidates without a row. */
  lemma EstimateCountsRowless(events: seq<Event>, candidates: seq<int>, limit: nat)
    requires Distinct(candidates) && limit >= 1 && Frozen(events, candidates)
    ensures var t := Run(Start(|candidates|), events, limit).tables;
            InvalidAddressEstimate(t.job.total, |AcceptedOf(t.members)|, |WithReason(t.members, "archived_lead")|,
                                   |WithReason(t.members, "suppressed")|)
            == |Rowless(t.members, |candidates|)|
  {
    RunKeepsInv(events, candidates, limit);
    var s := Run(Start(|candidates|), events, limit);
    hide Run, Handled;
    StoredReasons(s.tables.members, s.seen, candidates);
    forall m | m in s.tables.members ensures 1 <= m.ordinal <= |candidates| {
      assert Faithful(m, s.seen, candidates);
    }
    RowlessSize(s.tables.members, |candidates|);
  }

  /**
   Leads that change between two chunks can break both: here the second chunk finds the second
   lead with the address the first lead had, so a candidate that always had an address gets no row
   and is counted as invalid.
   */
  lemma AddressMovedBetweenChunks()
    ensures var t := Run(Start(2), TwoChunks(BEFORE, AFTER), 1).tables;
            && OwnAddresses(BEFORE) && OwnAddresses(AFTER)
            && t.status.Captured? && t.members == {Member(1, 10, 1, 1, map[], Accepted)}
  {
    var s1, s2 := AfterFirstChunk();
    var s3 := SecondClaim(s2);
    SecondChunk(s3.tables);
    RunOfFour(Start(2), Claim(0, 5), Commit(0, BEFORE, [1, 2]), Claim(0, 5), Commit(0, AFTER, [1, 2]), 1);
    hide CommitChunk, Run, OwnAddresses, Claimed;
  }

  lemma SecondClaim(s: State) returns (s': State)
    requires s.tables == Tables(Job(Processing, Some(Cursor([1, 2], 1)), 1, 2, Some(Lease(5, LEASE_TTL_SECONDS))),
                                Capturing, {Member(1, 10, 1, 1, map[], Accepted)})
    requires s.running == map[] && s.now == 0
    ensures s' == Step(s, Claim(0, 5), 1) && s'.tables == s.tables && s'.now == 0
    ensures 0 in s'.running && s'.running[0] == Execution(5, Some(Cursor([1, 2], 1)))
  {
    s' := Step(s, Claim(0, 5), 1);
  }

  lemma AfterFirstChunk() returns (s1: State, s2: State)
    ensures s1 == Step(Start(2), Claim(0, 5), 1) && s2 == Step(s1, Commit(0, BEFORE, [1, 2]), 1)
    ensures s2.tables == Tables(Job(Processing, Some(Cursor([1, 2], 1)), 1, 2, Some(Lease(5, LEASE_TTL_SECONDS))),
                                Capturing, {Member(1, 10, 1, 1, map[], Accepted)})
    ensures s2.running == map[] && s2.now == 0
  {
    var s0 := Start(2);
    FirstChunk(s0.tables.(job := Claimed(s0.tables.job, 5, 0)), Some(Lease(5, LEASE_TTL_SECONDS)));
    hide CommitChunk;
    s1 := Step(s0, Claim(0, 5), 1);
    assert s1.running == map[0 := Execution(5, None)];
    s2 := Step(s1, Commit(0, BEFORE, [1, 2]), 1);
    assert s2.running == map[];
  }

  /** One execution after another, a chunk each. */
  function TwoChunks(first: Facts, second: Facts): seq<Event> {
    [Claim(0, 5), Commit(0, first, [1, 2]), Claim(0, 5), Commit(0, second, [1, 2])]
  }

  const BEFORE: Facts := map[1 := Lead(false, Some(10), false, 1, map[]), 2 := Lead(false, Some(20), false, 1, map[])]
  const AFTER: Facts := map[1 := Lead(false, Some(30), false, 2, map[]), 2 := Lead(false, Some(10), false, 2, map[])]

  lemma RunOfFour(s: State, a: Event, b: Event, c: Event, d: Event, limit: nat)
    ensures Run(s, [a, b, c, d], limit) == Step(Step(Step(Step(s, a, limit), b, limit), c, limit), d, limit)
  {
    hide Step;
    assert [a, b, c, d][..3] == [a, b, c] && [a, b, c][..2] == [a, b] && [a, b][..1] == [a] && [a][..0] == [];
    assert Run(s, [a], limit) == Step(Run(s, [], limit), a, limit);
    assert Run(s, [a, b], limit) == Step(Run(s, [a], limit), b, limit);
    assert Run(s, [a, b, c], limit) == Step(Run(s, [a, b], limit), c, limit);
  }

  lemma FirstChunk(t: Tables, lease: Option<Lease>)
    requires t == Tables(Job(Processing, None, 0, 2, lease), Capturing, {})
             && lease == Some(Lease(5, LEASE_TTL_SECONDS))
    ensures CommitChunk(t, Execution(5, None), BEFORE, [1, 2], 1, 0)
            == Tables(Job(Processing, Some(Cursor([1, 2], 1)), 1, 2, lease), Capturing,
                      {Member(1, 10, 1, 1, map[], Accepted)})
  {
    OneRow(BEFORE, 1, 0);
    assert Batch(Cursor([1, 2], 0), 1) == [1];
    InsertOne({}, Member(1, 10, 1, 1, map[], Accepted));
  }

  lemma SecondChunk(t: Tables)
    requires t.status.Capturing? && t.job.total == 2 && t.members == {Member(1, 10, 1, 1, map[], Accepted)}
    ensures CommitChunk(t, Execution(5, Some(Cursor([1, 2], 1))), AFTER, [1, 2], 1, 0)
            == Tables(t.job.(state := Ready, processed := 2), Captured, t.members)
  {
    OneRow(AFTER, 2, 1);
    assert Batch(Cursor([1, 2], 1), 1) == [2];
    InsertOne(t.members, Member(2, 10, 2, 2, map[], Accepted));
  }

  lemma InsertOne(table: set<Member>, m: Member)
    ensures InsertAll(table, [m]) == if exists t | t in table :: Clashes(t, m) then table else table + {m}
  {
    assert [m][..0] == [];
  }

  lemma OneRow(facts: Facts, id: int, offset: nat)
    ensures BatchMembers(facts, [id], offset)
            == match MemberOf(facts, id, offset + 1) case None => [] case Some(m) => [m]
  {
    assert BatchMembers(facts, [id][..0], offset) == [];
  }

  // ---- One event, row by row ------------------------------------------------------------------------------

  /** Rows of the batch that were offered and are stored now, theirs or one that clashes with each. */
  ghost predicate BatchStored(before: set<Member>, after: set<Member>, facts: Facts, ids: seq<int>, offset: nat) {
    && before <= after && (NoClash(before) ==> NoClash(after))
    && (forall m | m in after && m !in before ::
          offset < m.ordinal <= offset + |ids| && m.lead == ids[m.ordinal - offset - 1] && SeenAs(m, facts))
    && forall k: nat | k < |ids| && HasAddress(facts, ids[k]) ::
      exists m | m in after ::
        m.lead == ids[k] || m.ordinal == offset + k + 1 || Some(m.address) == facts[ids[k]].address
  }

  lemma SeenHasAddress(m: Member, f: Facts)
    requires SeenAs(m, f)
    ensures HasAddress(f, m.lead) && f[m.lead].address == Some(m.address)
  {
  }

  /** A batch has rows to store exactly if one of its candidates has an address. */
  lemma BatchHasRowsIff(facts: Facts, ids: seq<int>, offset: nat)
    ensures BatchMembers(facts, ids, offset) != [] <==> exists k: nat | k < |ids| :: HasAddress(facts, ids[k])
  {
    BatchIsAsSeen(facts, ids, offset);
    hide MemberOf, BatchMembers, HasAddress, SeenAs;
    var rows := BatchMembers(facts, ids, offset);
    if rows != [] {
      var m := rows[0];
      assert m in rows;
      SeenHasAddress(m, facts);
      var k: nat := m.ordinal - offset - 1;
      assert HasAddress(facts, ids[k]);
    }
  }

  lemma BatchIsStored(table: set<Member>, facts: Facts, ids: seq<int>, offset: nat)
    ensures BatchStored(table, InsertAll(table, BatchMembers(facts, ids, offset)), facts, ids, offset)
  {
    hide MemberOf, InsertAll, BatchMembers, SeenAs, NoClash;
    var rows := BatchMembers(facts, ids, offset);
    BatchIsAsSeen(facts, ids, offset);
    InsertAllFacts(table, rows);
    var after := InsertAll(table, rows);
    forall k: nat | k < |ids| && HasAddress(facts, ids[k])
      ensures exists m | m in after ::
                m.lead == ids[k] || m.ordinal == offset + k + 1 || Some(m.address) == facts[ids[k]].address
    {
      var r :| r in rows && r.ordinal == offset + k + 1;
      SeenHasAddress(r, facts);
      var t := OfferedIsStored(table, rows, r);
    }
  }

  lemma OfferedIsStored(table: set<Member>, rows: seq<Member>, r: Member) returns (t: Member)
    requires r in rows
    ensures t in InsertAll(table, rows) && Clashes(t, r)
  {
    InsertAllFacts(table, rows);
    var i: nat :| i < |rows| && rows[i] == r;
    var after := InsertAll(table, rows);
    hide InsertAll;
    assert StoredOrRefused(after, table, rows, i);
    if r in after { t := r; } else { t :| t in after && Clashes(t, r); }
  }

  /**
   What a commit does, in any state: its execution ends. Once the audience is no longer capturing, a chunk with rows
   to store or at the end of the list is refused. A chunk past the job's total fails the capture. Otherwise its rows
   are stored, and the capture is complete at the end of the list, or has a new cursor and a new lease.
   */
  lemma CommitGives(s: State, p: int, facts: Facts, resolved: seq<int>, limit: nat)
    requires p in s.running
    ensures var t, t' := s.tables, Step(s, Commit(p, facts, resolved), limit).tables;
            var x := s.running[p];
            var list := if x.cursor.Some? then x.cursor.value.candidates else resolved;
            var offset := if x.cursor.Some? then x.cursor.value.offset else 0;
            var end := if offset >= |list| then offset else if offset + limit < |list| then offset + limit else |list|;
            var ids := if offset >= |list| then [] else list[offset..end];
            var atEnd := end >= |list| || limit == 0;
            if !t.status.Capturing? && (atEnd || exists k: nat | k < |ids| :: HasAddress(facts, ids[k])) then t' == t
            else if end > t.job.total then
              t' == if t.status.Capturing? then t.(status := CaptureFailed, job := t.job.(state := Failed)) else t
            else
              && BatchStored(t.members, t'.members, facts, ids, offset)
              && t'.job.processed == end && t'.job.total == t.job.total
              && if atEnd then
                   && t'.status == Captured && t'.job.state == Ready
                   && t'.job.cursor == t.job.cursor && t'.job.lease == t.job.lease
                 else
                   && t'.status == t.status && t'.job.state == t.job.state
                   && t'.job.cursor == Some(Cursor(list, end))
                   && t'.job.lease == Some(Lease(x.owner, s.now + LEASE_TTL_SECONDS))
  {
    hide MemberOf, InsertAll, BatchMembers, BatchStored, HasAddress;
    var c := StartCursor(s.running[p], resolved);
    var batch := Batch(c, limit);
    BatchIsStored(s.tables.members, facts, batch, c.offset);
    BatchHasRowsIff(facts, batch, c.offset);
    if c.offset >= |c.candidates| { assert batch == []; }
  }

  /** While capturing, the audience gets this status and its job fails; a finished audience stays as it is. */
  function Marked(t: Tables, status: AudienceStatus): Tables {
    if t.status == Capturing then Tables(t.job.(state := Failed), status, t.members) else t
  }

  /**
   How executions end: a commit, a crash, a failure and an abandoned selection end their own, and only a commit adds
   to what was seen. The last two mark the audience while it is capturing and never after; time only moves the clock.
   */
  lemma EndingsGive(s: State, p: int, facts: Facts, resolved: seq<int>, seconds: nat, limit: nat)
    requires p in s.running
    ensures var s' := Step(s, Commit(p, facts, resolved), limit);
            s' == s.(running := s.running - {p}, tables := s'.tables, seen := s.seen + {facts})
    ensures Step(s, Crash(p), limit) == s.(running := s.running - {p})
    ensures Step(s, Fail(p), limit) == s.(running := s.running - {p}, tables := Marked(s.tables, CaptureFailed))
    ensures Step(s, Abandon(p), limit) == s.(running := s.running - {p}, tables := Marked(s.tables, Abandoned))
    ensures Step(s, Tick(seconds), limit) == s.(now := s.now + seconds)
  {
    hide CommitChunk;
  }

  /** An event of a process that runs nothing changes nothing, but for a claim and the clock. */
  lemma NothingRuns(s: State, e: Event, limit: nat)
    requires e.Commit? || e.Crash? || e.Fail? || e.Abandon?
    requires e.process !in s.running
    ensures Step(s, e, limit) == s
  {
    if e.Crash? { assert s.running - {e.process} == s.running; }
  }

  // ---- Lease exclusion ---------------------------------------------------------------------------------

  /** What an event does to the lease: an execution starts, or a running one leaves a lease of its own behind. */
  ghost function MarkOf(s: State, e: Event, limit: nat): seq<Mark> {
    if e.Claim? && e.process !in s.running && e.process in Step(s, e, limit).running then [Taken(e.owner, s.now)]
    else if e.Commit? && e.process in s.running
            && Step(s, e, limit).tables.job.lease == Some(Lease(s.running[e.process].owner, s.now + LEASE_TTL_SECONDS))
    then [Renewed(s.running[e.process].owner, s.now)]
    else []
  }

  ghost function Marks(events: seq<Event>, total: nat, limit: nat): seq<Mark> {
    if events == [] then []
    else
      var init := events[..|events| - 1];
      Marks(init, total, limit) + MarkOf(Run(Start(total), init, limit), events[|events| - 1], limit)
  }

  lemma LeaseStep(s: State, e: Event, limit: nat)
    ensures var mark, lease := MarkOf(s, e, limit), Step(s, e, limit).tables.job.lease;
            && |mark| <= 1 && (mark == [] ==> lease == s.tables.job.lease)
            && (mark != [] ==> lease == Some(Lease(mark[0].owner, mark[0].at + LEASE_TTL_SECONDS)))
            && (mark != [] && mark[0].Taken? ==>
              CanClaim(s.tables.job.state, s.tables.job.lease, mark[0].owner, mark[0].at))
  {
  }

  /**
   Leases exclude, over every run: the stored lease is the one set last, and an execution of another owner
   starts only when its lifetime is over, counted from the claim or the progress that set it.
   */
  lemma {:induction false} LeaseExcludes(events: seq<Event>, total: nat, limit: nat)
    ensures Exclusion(Marks(events, total, limit))
    ensures Run(Start(total), events, limit).tables.job.lease == LeaseOf(Marks(events, total, limit))
  {
    hide Step, MarkOf, Exclusion, LeaseOf, Free;
    if events == [] {
      NoMarksYet();
    } else {
      var init, e := events[..|events| - 1], events[|events| - 1];
      LeaseExcludes(init, total, limit);
      var s, marks := Run(Start(total), init, limit), Marks(init, total, limit);
      LeaseStep(s, e, limit);
      var mark := MarkOf(s, e, limit);
      if mark == [] {
        assert marks + mark == marks;
      } else {
        FreeMeansNoLiveLease(marks, mark[0].owner, mark[0].at);
        OneMoreMark(marks, mark[0]);
        assert mark == [mark[0]];
      }
    }
  }

  /**
   Exactly when a claim takes the job, after any run: when it is unfinished and free for this owner. It then hands
   out what is stored and takes the lease; otherwise nothing happens. A READY or FAILED job is never taken.
   */
  lemma ClaimStartsIff(events: seq<Event>, p: int, owner: int, total: nat, limit: nat)
    requires p !in Run(Start(total), events, limit).running
    ensures var s := Run(Start(total), events, limit);
            var s' := Step(s, Claim(p, owner), limit);
            && (p in s'.running <==>
                  (s.tables.job.state.Pending? || s.tables.job.state.Processing?)
                    && Free(Marks(events, total, limit), owner, s.now))
            && (p !in s'.running ==> s' == s)
            && (p in s'.running ==>
                  && s'.running == s.running[p := Execution(owner, s.tables.job.cursor)]
                    && s'.tables.job.state.Processing?
                  && s'.tables.job.lease == Some(Lease(owner, s.now + LEASE_TTL_SECONDS)) && s'.now == s.now
                  && s'.tables.job.cursor == s.tables.job.cursor && s'.tables.job.processed == s.tables.job.processed
                    && s'.tables.job.total == s.tables.job.total
                  && s'.tables.status == s.tables.status && s'.tables.members == s.tables.members && s'.seen == s.seen)
  {
    hide Run, Marks, Exclusion, Free, LeaseOf;
    LeaseExcludes(events, total, limit);
    FreeMeansNoLiveLease(Marks(events, total, limit), owner, Run(Start(total), events, limit).now);
  }

  // ---- Progress --------------------------------------------------------------------------------

  /** A chunk that does not finish stores a cursor exactly one batch further on: what is left strictly shrinks. */
  lemma ChunkAdvances(t: Tables, e: Execution, facts: Facts, resolved: seq<int>, limit: nat, now: int)
    requires t.status.Capturing? && limit >= 1
    requires |StartCursor(e, resolved).candidates| <= t.job.total
    requires StartCursor(e, resolved).offset <= |StartCursor(e, resolved).candidates|
    ensures var c, t' := StartCursor(e, resolved), CommitChunk(t, e, facts, resolved, limit, now);
            && (t'.status.Captured? <==> c.offset + limit >= |c.candidates|)
            && (t'.status.Capturing? <==> c.offset + limit < |c.candidates|)
            && (t'.status.Captured? ==> t'.job.state.Ready? && t'.job.processed == |c.candidates|)
            && (t'.status.Capturing? ==> t'.job.cursor == Some(Cursor(c.candidates, c.offset + limit)))
  {
    var c := StartCursor(e, resolved);
    BatchIsSlice(c.candidates, c.offset, limit);
  }

  /** Where the stored cursor stands. */
  function Offset(job: Job): nat { if job.cursor.Some? then job.cursor.value.offset else 0 }

  /** A quiet moment: nobody is running, and worker 0 can claim the job. */
  ghost predicate Quiet(s: State, candidates: seq<int>) {
    && s.running == map[] && s.tables.status.Capturing? && s.tables.job.total == |candidates|
    && (s.tables.job.state.Pending? || s.tables.job.state.Processing?)
    && (s.tables.job.lease.None? || s.tables.job.lease.value.owner == 0)
    && (s.tables.job.cursor.Some? ==> s.tables.job.cursor.value.candidates == candidates)
    && Offset(s.tables.job) <= |candidates|
  }

  /** One undisturbed chunk from a quiet moment: done, or quiet again a batch further on. */
  lemma QuietChunk(s: State, candidates: seq<int>, facts: Facts, limit: nat)
    requires Quiet(s, candidates) && limit >= 1
    ensures var s' := Step(Step(s, Claim(0, 0), limit), Commit(0, facts, candidates), limit);
            var offset := Offset(s.tables.job);
            && s.tables.members <= s'.tables.members
            && (if offset + limit >= |candidates| then s'.tables.status.Captured?
                else Quiet(s', candidates) && Offset(s'.tables.job) == offset + limit)
            && forall m | m in s'.tables.members && m !in s.tables.members ::
                 offset < m.ordinal <= offset + limit && m.ordinal <= |candidates|
                 && MemberOf(facts, candidates[m.ordinal - 1], m.ordinal) == Some(m)
  {
    hide CommitChunk, MemberOf;
    var s1 := Step(s, Claim(0, 0), limit);
    assert s1.running == map[0 := Execution(0, s.tables.job.cursor)];
    ChunkAdvances(s1.tables, s1.running[0], facts, candidates, limit, s1.now);
    ChunkFrame(s1.tables, s1.running[0], facts, candidates, limit, s1.now);
    ChunkMembers(s1.tables, s1.running[0], facts, candidates, limit, s1.now);
    var s2 := Step(s1, Commit(0, facts, candidates), limit);
    assert s2.running == map[];
  }

  /** A chunk only adds members of its batch, as it saw them. */
  lemma ChunkMembers(t: Tables, e: Execution, facts: Facts, resolved: seq<int>, limit: nat, now: int)
    requires StartCursor(e, resolved).offset <= |StartCursor(e, resolved).candidates|
    ensures var c, t' := StartCursor(e, resolved), CommitChunk(t, e, facts, resolved, limit, now);
            && t.members <= t'.members
            && forall m | m in t'.members && m !in t.members ::
                 c.offset < m.ordinal <= c.offset + limit && m.ordinal <= |c.candidates|
                 && MemberOf(facts, c.candidates[m.ordinal - 1], m.ordinal) == Some(m)
  {
    hide MemberOf, BatchMembers, InsertAll;
    var c := StartCursor(e, resolved);
    BatchIsSlice(c.candidates, c.offset, limit);
    BatchMembersFacts(facts, Batch(c, limit), c.offset);
    InsertAllFacts(t.members, BatchMembers(facts, Batch(c, limit), c.offset));
  }

  lemma ChunkFrame(t: Tables, e: Execution, facts: Facts, resolved: seq<int>, limit: nat, now: int)
    ensures var t' := CommitChunk(t, e, facts, resolved, limit, now);
            && t'.job.total == t.job.total
            && (t'.job.lease == t.job.lease || t'.job.lease == Some(Lease(e.owner, now + LEASE_TTL_SECONDS)))
            && (t'.status.Capturing? ==> t'.job.state == t.job.state)
  {
    hide Batch, BatchMembers, InsertAll;
  }

  /**
   Capture always can be finished, from any quiet moment and whatever was committed before: claim and
   commit until nothing is left. No list of candidates blocks it.
   */
  lemma {:induction false} CaptureCanFinish(s: State, candidates: seq<int>, facts: Facts,
        limit: nat) returns (rest: seq<Event>)
    requires Quiet(s, candidates) && limit >= 1
    ensures Run(s, rest, limit).tables.status.Captured? && Frozen(rest, candidates) && Unchanged(rest, facts)
    ensures forall m | m in Run(s, rest, limit).tables.members ::
            m in s.tables.members || m.ordinal > Offset(s.tables.job)
    decreases |candidates| - Offset(s.tables.job)
  {
    hide Step, Quiet, Offset;
    QuietChunk(s, candidates, facts, limit);
    var a, b := Claim(0, 0), Commit(0, facts, candidates);
    var s' := Step(Step(s, a, limit), b, limit);
    RunOfTwo(s, a, b, limit);
    if s'.tables.status.Captured? {
      rest := [a, b];
    } else {
      var more := CaptureCanFinish(s', candidates, facts, limit);
      rest := [a, b] + more;
      RunAfter(s, [a, b], more, limit);
    }
  }

  lemma RunOfTwo(s: State, a: Event, b: Event, limit: nat)
    ensures Run(s, [a, b], limit) == Step(Step(s, a, limit), b, limit)
  {
    hide Step;
    assert [a, b][..1] == [a] && [a][..0] == [];
    assert Run(s, [a], limit) == Step(Run(s, [], limit), a, limit);
  }

  lemma {:induction false} RunAfter(s: State, first: seq<Event>, more: seq<Event>, limit: nat)
    ensures Run(s, first + more, limit) == Run(Run(s, first, limit), more, limit)
    decreases |more|
  {
    hide Step;
    if more == [] {
      assert first + more == first;
    } else {
      var n := |more| - 1;
      RunAfter(s, first, more[..n], limit);
      assert (first + more)[..|first + more| - 1] == first + more[..n];
    }
  }

  // ---- Leads that change between chunks ------------------------------------------------------------

  /** Every chunk read one of these versions of the leads. */
  ghost predicate ReadsFrom(events: seq<Event>, versions: set<Facts>) {
    forall e | e in events && e.Commit? :: e.facts in versions
  }

  /** The candidate has an address in every version. */
  ghost predicate AlwaysAddressed(candidates: seq<int>, versions: set<Facts>, i: nat)
    requires i < |candidates|
  {
    forall f | f in versions :: MemberOf(f, candidates[i], i + 1).Some?
  }

  /** The address candidate `i` has in version `f` is that of candidate `j`, of a later chunk, in version `f'`. */
  ghost predicate AddressPasses(candidates: seq<int>, limit: nat, f: Facts, i: nat, f': Facts, j: nat)
    requires limit >= 1 && i < |candidates| && j < |candidates|
  {
    && i < ChunkStart(j, limit)
    && MemberOf(f, candidates[i], i + 1).Some? && MemberOf(f', candidates[j], j + 1).Some?
    && MemberOf(f, candidates[i], i + 1).value.address == MemberOf(f', candidates[j], j + 1).value.address
  }

  /** No address passes from a candidate to one of a later chunk that has an address throughout. */
  ghost predicate NoAddressPasses(candidates: seq<int>, versions: set<Facts>, limit: nat)
    requires limit >= 1
  {
    forall i: nat, j: nat, f, f' | i < |candidates| && j < |candidates| && f in versions && f' in versions
                                   && AlwaysAddressed(candidates, versions, j) ::
      !AddressPasses(candidates, limit, f, i, f', j)
  }

  ghost predicate StoresAddressed(members: set<Member>, candidates: seq<int>, versions: set<Facts>) {
    forall i: nat | i < |candidates| && AlwaysAddressed(candidates, versions, i) :: HasRow(members, i)
  }

  /** Every run over these versions that completes stores every candidate that has an address in all of them. */
  ghost predicate KeepsAddressed(candidates: seq<int>, versions: set<Facts>, limit: nat) {
    forall events | Frozen(events, candidates) && ReadsFrom(events, versions)
                    && Run(Start(|candidates|), events, limit).tables.status.Captured? ::
      StoresAddressed(Run(Start(|candidates|), events, limit).tables.members, candidates, versions)
  }

  lemma {:induction false} SeenFrom(events: seq<Event>, versions: set<Facts>, total: nat, limit: nat)
    requires ReadsFrom(events, versions)
    ensures Run(Start(total), events, limit).seen <= versions
  {
    if events != [] { SeenFrom(events[..|events| - 1], versions, total, limit); }
  }

  /** The sufficient direction, on what a completed run has seen. */
  lemma NoPassNoLoss(events: seq<Event>, candidates: seq<int>, versions: set<Facts>, limit: nat)
    requires Distinct(candidates) && limit >= 1 && Frozen(events, candidates)
    requires Run(Start(|candidates|), events, limit).seen <= versions
    requires Run(Start(|candidates|), events, limit).tables.status.Captured?
    requires (forall f | f in versions :: OwnAddresses(f)) && NoAddressPasses(candidates, versions, limit)
    ensures StoresAddressed(Run(Start(|candidates|), events, limit).tables.members, candidates, versions)
  {
    hide *;
    CompletedCaptureIsFaithful(events, candidates, limit);
    var s := Run(Start(|candidates|), events, limit);
    HandledIsStored(s.tables.members, s.seen, candidates, versions, limit);
  }

  lemma HandledIsStored(members: set<Member>, seen: set<Facts>, candidates: seq<int>, versions: set<Facts>, limit: nat)
    requires Distinct(candidates) && limit >= 1 && seen <= versions
    requires forall m | m in members :: Faithful(m, seen, candidates)
    requires HandledUpTo(members, seen, candidates, limit, |candidates|)
    requires (forall f | f in versions :: OwnAddresses(f)) && NoAddressPasses(candidates, versions, limit)
    ensures StoresAddressed(members, candidates, versions)
  {
    hide MemberOf, OwnAddresses, ChunkStart, LostTo;
    forall i: nat | i < |candidates| && AlwaysAddressed(candidates, versions, i) ensures HasRow(members, i) {
      assert Handled(members, seen, candidates, limit, i);
      if !HasRow(members, i) {
        var f, m :| f in seen && m in members && LostTo(f, m, candidates, limit, i);
        NotLost(f, m, seen, candidates, versions, limit, i);
      }
    }
  }

  lemma NotLost(f: Facts, m: Member, seen: set<Facts>, candidates: seq<int>, versions: set<Facts>, limit: nat, i: nat)
    requires Distinct(candidates) && limit >= 1 && seen <= versions && f in seen && Faithful(m, seen, candidates)
    requires i < |candidates| && AlwaysAddressed(candidates, versions, i) && OwnAddresses(f)
    requires NoAddressPasses(candidates, versions, limit)
    ensures !LostTo(f, m, candidates, limit, i)
  {
    hide MemberOf, OwnAddresses, ChunkStart;
    var j: nat := m.ordinal - 1;
    var f' :| f' in seen && MemberOf(f', candidates[j], m.ordinal) == Some(m);
    assert !AddressPasses(candidates, limit, f', j, f, i);
    if m.ordinal <= i && MemberOf(f, candidates[j], m.ordinal) == Some(m) && MemberOf(f, candidates[i], i + 1).Some? {
      OtherAddress(f, candidates, j, i);
    }
  }

  /** Under one version two candidates have different addresses. */
  lemma OtherAddress(f: Facts, candidates: seq<int>, i: nat, j: nat)
    requires Distinct(candidates) && OwnAddresses(f) && i < j < |candidates|
    requires MemberOf(f, candidates[i], i + 1).Some? && MemberOf(f, candidates[j], j + 1).Some?
    ensures MemberOf(f, candidates[i], i + 1).value.address != MemberOf(f, candidates[j], j + 1).value.address
  {
    assert candidates[i] in f && candidates[j] in f;
  }

  /** Chunks over one version reach any chunk boundary before the end. */
  lemma {:induction false} ReachOffset(candidates: seq<int>, facts: Facts, limit: nat, offset: nat)
    returns (events: seq<Event>)
    requires limit >= 1 && offset % limit == 0 && offset < |candidates|
    ensures Frozen(events, candidates) && Unchanged(events, facts)
    ensures var s := Run(Start(|candidates|), events, limit);
            && Quiet(s, candidates) && Offset(s.tables.job) == offset
            && forall m | m in s.tables.members :: m.ordinal <= offset
    decreases offset
  {
    hide Step, MemberOf;
    if offset == 0 {
      events := [];
    } else {
      PreviousChunk(offset, limit);
      var before := offset - limit;
      var first := ReachOffset(candidates, facts, limit, before);
      var s := Run(Start(|candidates|), first, limit);
      var two := [Claim(0, 0), Commit(0, facts, candidates)];
      QuietChunk(s, candidates, facts, limit);
      RunOfTwo(s, two[0], two[1], limit);
      events := first + two;
      RunAfter(Start(|candidates|), first, two, limit);
    }
  }

  lemma PreviousChunk(offset: nat, limit: nat)
    requires limit >= 1 && offset > 0 && offset % limit == 0
    ensures offset >= limit && (offset - limit) % limit == 0
  {
    DivUnique(offset - limit, limit, offset / limit - 1, 0);
  }

  /** The row of candidate `i` once chunks over one version have gone past it. */
  lemma StoredBefore(events: seq<Event>, candidates: seq<int>, facts: Facts, limit: nat, i: nat)
    requires Distinct(candidates) && limit >= 1 && OwnAddresses(facts) && i < |candidates|
    requires Frozen(events, candidates) && Unchanged(events, facts)
    requires i < Offset(Run(Start(|candidates|), events, limit).tables.job)
    requires MemberOf(facts, candidates[i], i + 1).Some?
    ensures MemberOf(facts, candidates[i], i + 1).value in Run(Start(|candidates|), events, limit).tables.members
  {
    hide MemberOf, OwnAddresses, Handled, WholeChunks, Run;
    RunKeepsInv(events, candidates, limit);
    SeenOnly(events, facts, |candidates|, limit);
    var s := Run(Start(|candidates|), events, limit);
    HandledMeansStored(s.tables.members, s.seen, candidates, limit, facts, i);
  }

  /** The run behind the necessary direction: the earlier version until the chunk of `j`, the later one for it. */
  lemma PassLosesRow(candidates: seq<int>, limit: nat, f: Facts, i: nat, f': Facts, j: nat) returns (events: seq<Event>)
    requires Distinct(candidates) && limit >= 1 && OwnAddresses(f)
    requires i < |candidates| && j < |candidates| && AddressPasses(candidates, limit, f, i, f', j)
    ensures Frozen(events, candidates) && ReadsFrom(events, {f, f'})
    ensures var t := Run(Start(|candidates|), events, limit).tables; t.status.Captured? && !HasRow(t.members, j)
  {
    hide Step, MemberOf, OwnAddresses, Run, Quiet, Offset;
    var o := ChunkStart(j, limit);
    ChunkBounds(j, limit);
    var first := ReachOffset(candidates, f, limit, o);
    var s := Run(Start(|candidates|), first, limit);
    StoredBefore(first, candidates, f, limit, i);
    var two := [Claim(0, 0), Commit(0, f', candidates)];
    QuietChunk(s, candidates, f', limit);
    RunOfTwo(s, two[0], two[1], limit);
    RunAfter(Start(|candidates|), first, two, limit);
    var s2 := Run(Start(|candidates|), first + two, limit);
    RunKeepsInv(first + two, candidates, limit);
    RefusedRow(s.tables.members, s2.tables.members, candidates, f, i, f', j);
    if s2.tables.status.Captured? {
      events := first + two;
    } else {
      var rest := CaptureCanFinish(s2, candidates, f, limit);
      events := first + two + rest;
      RunAfter(Start(|candidates|), first + two, rest, limit);
    }
  }

  lemma ChunkBounds(j: nat, limit: nat)
    requires limit >= 1
    ensures ChunkStart(j, limit) % limit == 0 && ChunkStart(j, limit) <= j < ChunkStart(j, limit) + limit
  {
    DivUnique(ChunkStart(j, limit), limit, j / limit, 0);
  }

  /** While a row holds the address, no row with it is added. */
  lemma RefusedRow(before: set<Member>, after: set<Member>, candidates: seq<int>, f: Facts, i: nat, f': Facts, j: nat)
    requires i < j < |candidates| && before <= after && NoClash(after)
    requires MemberOf(f, candidates[i], i + 1).Some? && MemberOf(f, candidates[i], i + 1).value in before
    requires MemberOf(f', candidates[j], j + 1).Some?
    requires MemberOf(f, candidates[i], i + 1).value.address == MemberOf(f', candidates[j], j + 1).value.address
    requires forall m | m in before :: m.ordinal <= j
    requires forall m | m in after && m !in before ::
               1 <= m.ordinal <= |candidates| && MemberOf(f', candidates[m.ordinal - 1], m.ordinal) == Some(m)
    ensures !HasRow(after, j)
  {
    hide MemberOf;
    var t := MemberOf(f, candidates[i], i + 1).value;
    forall m | m in after ensures m.ordinal != j + 1 {
      assert m == t || !Clashes(t, m);
    }
  }

  /**
   What leads may do while their audience is captured. Every completing run over a set of lead versions
   stores every candidate that has an address in all of them, exactly when no address passes from a
   candidate to one of a later chunk.
   */
  lemma KeepsAddressedIff(candidates: seq<int>, versions: set<Facts>, limit: nat)
    requires Distinct(candidates) && limit >= 1 && forall f | f in versions :: OwnAddresses(f)
    ensures KeepsAddressed(candidates, versions, limit) <==> NoAddressPasses(candidates, versions, limit)
  {
    hide Run, MemberOf, OwnAddresses, StoresAddressed, AddressPasses, AlwaysAddressed;
    if NoAddressPasses(candidates, versions, limit) {
      forall events | Frozen(events, candidates) && ReadsFrom(events, versions)
                      && Run(Start(|candidates|), events, limit).tables.status.Captured?
        ensures StoresAddressed(Run(Start(|candidates|), events, limit).tables.members, candidates, versions)
      {
        SeenFrom(events, versions, |candidates|, limit);
        NoPassNoLoss(events, candidates, versions, limit);
      }
    } else {
      var i: nat, j: nat, f, f' :| i < |candidates| && j < |candidates| && f in versions && f' in versions
                                   && AlwaysAddressed(candidates, versions, j)
                                   && AddressPasses(candidates, limit, f, i, f', j);
      var events := PassLosesRow(candidates, limit, f, i, f', j);
      NotAllStored(Run(Start(|candidates|), events, limit).tables.members, candidates, versions, j);
    }
  }

  lemma NotAllStored(members: set<Member>, candidates: seq<int>, versions: set<Facts>, j: nat)
    requires j < |candidates| && AlwaysAddressed(candidates, versions, j) && !HasRow(members, j)
    ensures !StoresAddressed(members, candidates, versions)
  {
  }

  /** A completed, failed or abandoned audience never changes again, whatever late executions still commit. */
  lemma TerminalAudienceIsImmutable(s: State, e: Event, limit: nat)
    requires !s.tables.status.Capturing?
    requires s.tables.job.state.Ready? || s.tables.job.state.Failed?
    ensures var s' := Step(s, e, limit);
            s'.tables.status == s.tables.status && s'.tables.members == s.tables.members
            && s'.tables.job.state == s.tables.job.state
  {
    if e.Commit? && e.process in s.running {
      assert InsertAll(s.tables.members, []) == s.tables.members;
    }
  }

  // ---- The worker --------------------------------------------------------------------------------

  class CaptureTask {
    var job: Job
    var status: AudienceStatus
    var members: set<Member>

    function Snapshot(): Tables
      reads this
    {
      Tables(job, status, members)
    }

    constructor (total: nat)
      ensures Snapshot() == Start(total).tables
    {
      job, status, members := Job(Pending, None, 0, total, None), Capturing, {};
    }

    method ClaimJob(owner: int, now: int) returns (e: Option<Execution>)
      modifies this
      ensures e.Some? <==>
                (old(job).state.Pending? || old(job).state.Processing?)
                && (old(job).lease.None? || old(job).lease.value.expires < now || old(job).lease.value.owner == owner)
      ensures e.Some? ==> e.value == Execution(owner, old(job).cursor)
                          && Snapshot() == old(Snapshot()).(job := Claimed(old(job), owner, now))
      ensures e.None? ==> Snapshot() == old(Snapshot())
    {
      if !Claimable(job, owner, now) { return None; }
      e := Some(Execution(owner, job.cursor));
      job := Claimed(job, owner, now);
    }

    method FailWith(outcome: AudienceStatus)
      modifies this
      ensures Snapshot() == FailCapture(old(Snapshot()), outcome)
    {
      if status.Capturing? {
        job, status := job.(state := Failed), outcome;
      }
    }

    /** Classifies a batch and keeps what can be stored. */
    method ClassifyBatch(batch: seq<int>, facts: Facts, offset: nat) returns (insertable: seq<Member>)
      ensures insertable == BatchMembers(facts, batch, offset)
      ensures BatchAsSeen(facts, batch, offset, insertable)
    {
      hide BatchAsSeen;
      BatchIsAsSeen(facts, batch, offset);
      insertable := [];
      for i := 0 to |batch|
        invariant insertable == BatchMembers(facts, batch[..i], offset)
      {
        assert batch[..i + 1][..i] == batch[..i];
        var row := CaptureRow(facts, batch[i], offset + i + 1);
        if row.address.Some? {
          insertable := insertable
            + [Member(row.lead, row.address.value, row.ordinal, row.revision, row.variables, row.eligibility)];
        }
      }
      assert batch[..|batch|] == batch;
    }

    method InsertMembers(rows: seq<Member>)
      modifies this`members
      ensures members == InsertAll(old(members), rows)
    {
      for k := 0 to |rows|
        invariant members == InsertAll(old(members), rows[..k])
      {
        assert rows[..k + 1][..k] == rows[..k];
        if !exists t | t in members :: Clashes(t, rows[k]) {
          members := members + {rows[k]};
        }
      }
      assert rows[..|rows|] == rows;
    }

    /** One chunk of an execution that holds a claim. */
    method CaptureChunk(e: Execution, facts: Facts, resolved: seq<int>, limit: nat, now: int)
      modifies this
      ensures Snapshot() == CommitChunk(old(Snapshot()), e, facts, resolved, limit, now)
    {
      hide BatchAsSeen, BatchMembers, InsertAll, Batch;
      var cursor := StartCursor(e, resolved);
      var batch := Batch(cursor, limit);
      var insertable := ClassifyBatch(batch, facts, cursor.offset);
      var newOffset := cursor.offset + |batch|;
      var finished := |batch| == 0 || newOffset >= |cursor.candidates|;
      if !status.Capturing? && (finished || insertable != []) { return; }  // refused by the database, rolled back
      if newOffset > job.total {
        FailWith(CaptureFailed);
        return;
      }
      InsertMembers(insertable);
      if finished {
        job, status := job.(state := Ready, processed := newOffset), Captured;
      } else {
        job := job.(cursor := Some(Cursor(cursor.candidates, newOffset)), processed := newOffset,
                    lease := Some(Lease(e.owner, now + LEASE_TTL_SECONDS)));
      }
    }
  }
}
