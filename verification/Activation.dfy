/**
 Activating, pausing and resuming campaigns (backend/app/modules/campaigns/activation_service.py), with
 the other writers of the same rows: draft edits, archiving and the worker that finishes planning.

 Every request runs in one transaction that commits at the end or rolls back on an error, and locks the
 campaign row it changes, so requests are modelled one after another. A campaign has one sequence.
 Payloads are compared themselves, where the source compares their SHA-256 hashes.
 */
module Activation {
  import opened Wrappers
  import Preflight

  // ---- Rows -------------------------------------------------------------------------------

  datatype Status = Draft | Scheduled | Running | Paused | Archived

  /** What activation fixes for good. */
  datatype Activated = Activated(id: int, sequence: int, audience: int)

  datatype Campaign = Campaign(status: Status, version: nat, startAt: Option<int>, activation: Option<Activated>,
                               sequence: Option<int>, audience: Option<int>)

  datatype Sequence = Sequence(campaign: int, steps: seq<Preflight.Step>, frozen: bool)

  datatype Phase = Enroll | Render

  datatype Job = Job(campaign: int, activation: int, sequence: int, phase: Phase, total: nat)

  datatype StartAt = Unset | At(instant: int) | WithoutOffset

  datatype Payload = Payload(expectedVersion: int, startAt: StartAt)

  /** Identity of a command: who, and their idempotency key. */
  datatype Key = Key(actor: int, requestKey: int)

  datatype Receipt = Receipt(payload: Payload, completed: bool, campaign: int, responseVersion: nat)

  /** A READY audience and how many of its members were accepted. */
  datatype Audience = Audience(campaign: int, accepted: nat)

  /** `nextId` is the next activation id. */
  datatype Db = Db(campaigns: map<int, Campaign>, sequences: map<int, Sequence>, audiences: map<int, Audience>,
                   receipts: map<Key, Receipt>, jobs: set<Job>, nextId: int)

  datatype Error =
    | ValidationError
    | KeyReused
    | NotFound
    | StateConflict
    | VersionConflict
    | NotReady
    | SequenceConflict

  // ---- Requests as functions ----------------------------------------------------------------

  /** Preflight: the sequence rules, a committed audience with somebody in it, and the checks modelled elsewhere. */
  predicate Ready(db: Db, c: Campaign, otherChecks: bool) {
    && otherChecks
    && c.sequence.Some? && c.sequence.value in db.sequences
    && Preflight.SequenceIssues(db.sequences[c.sequence.value].steps) == []
    && c.audience.Some? && c.audience.value in db.audiences && db.audiences[c.audience.value].accepted > 0
  }

  function StartOf(startAt: StartAt, now: int): int {
    if !startAt.At? || startAt.instant <= now then now else startAt.instant
  }

  function TargetStatus(startAt: StartAt, now: int): Status {
    if !startAt.At? || startAt.instant <= now then Running else Scheduled
  }

  function JobsOf(campaign: int, a: Activated, total: nat): set<Job> {
    {Job(campaign, a.id, a.sequence, Enroll, total), Job(campaign, a.id, a.sequence, Render, total)}
  }

  /** The campaign row after activation: the touch trigger counts the version up. */
  function ActivatedCampaign(c: Campaign, a: Activated, startAt: StartAt, now: int): Campaign {
    c.(status := TargetStatus(startAt, now), version := c.version + 1, startAt := Some(StartOf(startAt, now)),
       activation := Some(a))
  }

  /** The error an activation of campaign `id` meets, if any, once its receipt is open. */
  function ActivationError(db: Db, id: int, p: Payload, otherChecks: bool): Option<Error> {
    if id !in db.campaigns then Some(NotFound)
    else
      var c := db.campaigns[id];
      if !c.status.Draft? then Some(StateConflict)
      else if c.version != p.expectedVersion then Some(VersionConflict)
      else if !Ready(db, c, otherChecks) then Some(NotReady)
      else if db.sequences[c.sequence.value].frozen then Some(SequenceConflict)
      else None
  }

  /** The receipt a command works under: the one it finds, or a new pending one. */
  function OpenReceipt(db: Db, key: Key, id: int, p: Payload): Receipt {
    if key in db.receipts then db.receipts[key] else Receipt(p, false, id, 0)
  }

  function CommitActivation(db: Db, key: Key, id: int, p: Payload, now: int): Db
    requires id in db.campaigns && Ready(db, db.campaigns[id], true)
  {
    var c := db.campaigns[id];
    var a := Activated(db.nextId, c.sequence.value, c.audience.value);
    db.(sequences := db.sequences[a.sequence := db.sequences[a.sequence].(frozen := true)],
        campaigns := db.campaigns[id := ActivatedCampaign(c, a, p.startAt, now)],
        jobs := db.jobs + JobsOf(id, a, db.audiences[a.audience].accepted),
        receipts := db.receipts[key := OpenReceipt(db, key, id, p).(completed := true,
                                                                    responseVersion := c.version + 1)],
        nextId := db.nextId + 1)
  }

  function Replayed(db: Db, id: int): Result<Campaign, Error> {
    if id in db.campaigns then Success(db.campaigns[id]) else Failure(NotFound)
  }

  function Activate(db: Db, key: Key, id: int, p: Payload, otherChecks: bool, now: int): (Db, Result<Campaign, Error>) {
    if p.startAt.WithoutOffset? then (db, Failure(ValidationError))
    else if key in db.receipts && db.receipts[key].payload != p then (db, Failure(KeyReused))
    else if key in db.receipts && db.receipts[key].completed then (db, Replayed(db, id))
    else
      var error := ActivationError(db, id, p, otherChecks);
      if error.Some? then (db, Failure(error.value))
      else
        var db' := CommitActivation(db, key, id, p, now);
        (db', Success(db'.campaigns[id]))
  }

  function Change(db: Db, id: int, status: Status): Db
    requires id in db.campaigns
  {
    var c := db.campaigns[id];
    db.(campaigns := db.campaigns[id := c.(status := status, version := c.version + 1)])
  }

  function Pause(db: Db, id: int, expectedVersion: int): (Db, Result<Campaign, Error>) {
    if id !in db.campaigns then (db, Failure(NotFound))
    else if !(db.campaigns[id].status.Running? || db.campaigns[id].status.Scheduled?) then (db, Failure(StateConflict))
    else if db.campaigns[id].version != expectedVersion then (db, Failure(VersionConflict))
    else var db' := Change(db, id, Paused); (db', Success(db'.campaigns[id]))
  }

  function ResumedStatus(c: Campaign, now: int): Status {
    if c.startAt.None? || c.startAt.value <= now then Running else Scheduled
  }

  function Resume(db: Db, id: int, expectedVersion: int, now: int): (Db, Result<Campaign, Error>) {
    if id !in db.campaigns then (db, Failure(NotFound))
    else if !db.campaigns[id].status.Paused? then (db, Failure(StateConflict))
    else if db.campaigns[id].version != expectedVersion then (db, Failure(VersionConflict))
    else var db' := Change(db, id, ResumedStatus(db.campaigns[id], now)); (db', Success(db'.campaigns[id]))
  }

  function Archive(db: Db, id: int, expectedVersion: int): (Db, Result<Campaign, Error>) {
    if id !in db.campaigns then (db, Failure(NotFound))
    else if db.campaigns[id].status.Archived? then (db, Success(db.campaigns[id]))
    else if db.campaigns[id].status.Running? then (db, Failure(StateConflict))
    else if db.campaigns[id].version != expectedVersion then (db, Failure(VersionConflict))
    else var db' := Change(db, id, Archived); (db', Success(db'.campaigns[id]))
  }

  /** Draft work: new steps in an unfrozen sequence of a DRAFT campaign, or a newly committed audience. */
  function EditSteps(db: Db, sequence: int, steps: seq<Preflight.Step>): Db {
    if sequence !in db.sequences || db.sequences[sequence].frozen then db
    else db.(sequences := db.sequences[sequence := db.sequences[sequence].(steps := steps)])
  }

  function CommitAudience(db: Db, id: int, audience: int): Db {
    if id !in db.campaigns || !db.campaigns[id].status.Draft? || audience !in db.audiences then db
    else if db.audiences[audience].campaign != id then db
    else
      var c := db.campaigns[id];
      db.(campaigns := db.campaigns[id := c.(audience := Some(audience), version := c.version + 1)])
  }

  /** A captured audience becomes READY; a ready one never changes. */
  function AudienceReady(db: Db, audience: int, id: int, accepted: nat): Db {
    if audience in db.audiences || id !in db.campaigns then db
    else db.(audiences := db.audiences[audience := Audience(id, accepted)])
  }

  /** Planning is done: the worker marks the campaign, which counts its version up. */
  function PlanningDone(db: Db, id: int): Db {
    if id !in db.campaigns || db.campaigns[id].activation.None? then db
    else db.(campaigns := db.campaigns[id := db.campaigns[id].(version := db.campaigns[id].version + 1)])
  }

  /** A new campaign starts as a draft with an empty sequence of its own. */
  function Create(db: Db, id: int, sequence: int): Db {
    if id in db.campaigns || sequence in db.sequences then db
    else db.(campaigns := db.campaigns[id := Campaign(Draft, 1, None, None, Some(sequence), None)],
             sequences := db.sequences[sequence := Sequence(id, [], false)])
  }

  // ---- Histories ------------------------------------------------------------------------------

  datatype Event =
    | DoActivate(key: Key, id: int, payload: Payload, otherChecks: bool)
    | DoPause(id: int, expectedVersion: int)
    | DoResume(id: int, expectedVersion: int)
    | DoArchive(id: int, expectedVersion: int)
    | DoCreate(id: int, newSequence: int)
    | DoEditSteps(sequence: int, steps: seq<Preflight.Step>)
    | DoCommitAudience(id: int, audience: int)
    | DoAudienceReady(readyAudience: int, id: int, acceptedCount: nat)
    | DoPlanningDone(id: int)
    | Tick(seconds: nat)

  datatype State = State(db: Db, now: int)

  function Step(s: State, e: Event): State {
    match e
    case DoActivate(key, id, p, otherChecks) => s.(db := Activate(s.db, key, id, p, otherChecks, s.now).0)
    case DoPause(id, v) => s.(db := Pause(s.db, id, v).0)
    case DoResume(id, v) => s.(db := Resume(s.db, id, v, s.now).0)
    case DoArchive(id, v) => s.(db := Archive(s.db, id, v).0)
    case DoCreate(id, sequence) => s.(db := Create(s.db, id, sequence))
    case DoEditSteps(sequence, steps) => s.(db := EditSteps(s.db, sequence, steps))
    case DoCommitAudience(id, audience) => s.(db := CommitAudience(s.db, id, audience))
    case DoAudienceReady(audience, id, accepted) => s.(db := AudienceReady(s.db, audience, id, accepted))
    case DoPlanningDone(id) => s.(db := PlanningDone(s.db, id))
    case Tick(seconds) => s.(now := s.now + seconds)
  }

  const EMPTY := State(Db(map[], map[], map[], map[], {}, 0), 0)

  function Run(events: seq<Event>): State {
    if events == [] then EMPTY else Step(Run(events[..|events| - 1]), events[|events| - 1])
  }

  // ---- What every reachable state keeps -----------------------------------------------------------

  /** Never activated is a draft, or a draft archived; RUNNING means its start has come. */
  ghost predicate CampaignOk(db: Db, id: int, now: int)
    requires id in db.campaigns
  {
    var c := db.campaigns[id];
    && (c.activation.None? <==> c.status.Draft? || (c.status.Archived? && c.startAt.None?))
    && (c.activation.Some? ==> c.startAt.Some? && ActivationOk(db, c, id))
    && (c.status.Running? ==> c.startAt.value <= now)
    && (c.activation.None? ==> c.startAt.None?)
    && (c.sequence.Some? ==> c.sequence.value in db.sequences && db.sequences[c.sequence.value].campaign == id)
    && (c.audience.Some? ==> c.audience.value in db.audiences && db.audiences[c.audience.value].campaign == id)
  }

  /** Frozen well-formed content, a known audience, and exactly the two planning jobs. */
  ghost predicate ActivationOk(db: Db, c: Campaign, id: int)
    requires c.activation.Some?
  {
    var a := c.activation.value;
    && a.id < db.nextId
    && c.sequence == Some(a.sequence) && c.audience == Some(a.audience)
    && a.sequence in db.sequences && db.sequences[a.sequence].frozen
    && Preflight.WellFormed(db.sequences[a.sequence].steps)
    && a.audience in db.audiences && db.audiences[a.audience].campaign == id && db.audiences[a.audience].accepted > 0
    && JobsFor(db, id) == JobsOf(id, a, db.audiences[a.audience].accepted)
  }

  ghost function JobsFor(db: Db, id: int): set<Job> { set j | j in db.jobs && j.campaign == id }

  ghost predicate ReceiptOk(db: Db, key: Key)
    requires key in db.receipts
  {
    var r := db.receipts[key];
    r.completed && r.campaign in db.campaigns && db.campaigns[r.campaign].activation.Some?
  }

  ghost predicate Inv(s: State) {
    && (forall id | id in s.db.campaigns :: CampaignOk(s.db, id, s.now))
    && (forall id | id in s.db.campaigns && s.db.campaigns[id].activation.None? :: JobsFor(s.db, id) == {})
    && (forall j | j in s.db.jobs :: j.campaign in s.db.campaigns)
    && (forall key | key in s.db.receipts :: ReceiptOk(s.db, key))
    && (forall id, id' | id in s.db.campaigns && id' in s.db.campaigns && id != id'
          && s.db.campaigns[id].activation.Some? && s.db.campaigns[id'].activation.Some? ::
          s.db.campaigns[id].activation.value.id != s.db.campaigns[id'].activation.value.id)
  }

  predicate AllowedEdge(a: Status, b: Status) {
    match a
    case Draft => b.Running? || b.Scheduled? || b.Archived?
    case Scheduled => b.Paused? || b.Archived?
    case Running => b.Paused?
    case Paused => b.Running? || b.Scheduled? || b.Archived?
    case Archived => false
  }

  /** What no step undoes. */
  ghost predicate Onward(a: Db, b: Db) {
    && (forall id | id in a.campaigns :: id in b.campaigns && CampaignOnward(a.campaigns[id], b.campaigns[id]))
    && (forall q | q in a.sequences :: q in b.sequences && b.sequences[q].campaign == a.sequences[q].campaign)
    && (forall q | q in a.sequences && a.sequences[q].frozen :: b.sequences[q] == a.sequences[q])
    && (forall key | key in a.receipts :: key in b.receipts && b.receipts[key] == a.receipts[key])
    && (forall u | u in a.audiences :: u in b.audiences && b.audiences[u] == a.audiences[u])
    && a.jobs <= b.jobs && a.nextId <= b.nextId
  }

  ghost predicate CampaignOnward(c: Campaign, c': Campaign) {
    && c.version <= c'.version && (c != c' ==> c.version < c'.version)
    && (c.status != c'.status ==> AllowedEdge(c.status, c'.status))
    && (c.activation.Some? ==> SameActivation(c, c'))
  }

  ghost predicate SameActivation(c: Campaign, c': Campaign) {
    c'.activation == c.activation && c'.startAt == c.startAt && c'.sequence == c.sequence && c'.audience == c.audience
  }

  /** Onward over many steps: statuses may take several edges. */
  ghost predicate Later(a: Db, b: Db) {
    && (forall id | id in a.campaigns :: id in b.campaigns && a.campaigns[id].version <= b.campaigns[id].version)
    && (forall id | id in a.campaigns && a.campaigns[id].activation.Some? ::
      SameActivation(a.campaigns[id], b.campaigns[id]))
    && (forall key | key in a.receipts :: key in b.receipts && b.receipts[key] == a.receipts[key])
  }

  // ---- One request at a time -----------------------------------------------------------------------

  /** A campaign whose neighbour rows only moved onward keeps what it promises. */
  lemma StaysOk(db: Db, db': Db, id: int, now: int, now': int)
    requires id in db.campaigns && CampaignOk(db, id, now) && now <= now'
    requires id in db'.campaigns && db'.campaigns[id] == db.campaigns[id]
    requires Onward(db, db') && JobsFor(db', id) == JobsFor(db, id)
    ensures CampaignOk(db', id, now')
  {
    hide Preflight.WellFormed, JobsFor;
    var c := db.campaigns[id];
    if c.sequence.Some? {
      var q := c.sequence.value;
      assert q in db'.sequences && db'.sequences[q].campaign == id;
      if db.sequences[q].frozen { assert db'.sequences[q] == db.sequences[q]; }
    }
    if c.audience.Some? {
      var u := c.audience.value;
      assert u in db.audiences;
      assert u in db'.audiences && db'.audiences[u] == db.audiences[u];
    }
  }

  lemma StatusChangeKeepsInv(s: State, id: int, status: Status)
    requires Inv(s) && id in s.db.campaigns && AllowedEdge(s.db.campaigns[id].status, status)
    requires s.db.campaigns[id].status.Draft? ==> status.Archived?
    requires status.Running? ==> s.db.campaigns[id].startAt.None? || s.db.campaigns[id].startAt.value <= s.now
    ensures Inv(s.(db := Change(s.db, id, status))) && Onward(s.db, Change(s.db, id, status))
  {
    RowChangeKeepsInv(s, id, Change(s.db, id, status).campaigns[id]);
  }

  /** A new version of one campaign's row that keeps its activation. */
  lemma RowChangeKeepsInv(s: State, id: int, c': Campaign)
    requires Inv(s) && id in s.db.campaigns && CampaignOnward(s.db.campaigns[id], c')
    requires var c := s.db.campaigns[id];
             && c'.activation == c.activation && c'.startAt == c.startAt && c'.sequence == c.sequence
             && (c'.audience == c.audience || (c'.audience.Some? && c'.audience.value in s.db.audiences
                  && s.db.audiences[c'.audience.value].campaign == id))
             && (c'.activation.None? <==> c'.status.Draft? || (c'.status.Archived? && c'.startAt.None?))
             && (c'.status.Running? ==> c'.startAt.Some? && c'.startAt.value <= s.now)
    ensures var db' := s.db.(campaigns := s.db.campaigns[id := c']);
            Inv(s.(db := db')) && Onward(s.db, db')
  {
    hide Preflight.WellFormed;
    var db' := s.db.(campaigns := s.db.campaigns[id := c']);
    forall i | i in db'.campaigns ensures CampaignOk(db', i, s.now) && JobsFor(db', i) == JobsFor(s.db, i) {
      assert CampaignOk(s.db, i, s.now);
      assert JobsFor(db', i) == JobsFor(s.db, i);
    }
    forall key | key in db'.receipts ensures ReceiptOk(db', key) {
      assert ReceiptOk(s.db, key);
    }
  }

  lemma CommitKeepsInv(s: State, key: Key, id: int, p: Payload)
    requires Inv(s) && id in s.db.campaigns && key !in s.db.receipts
    requires s.db.campaigns[id].status.Draft? && Ready(s.db, s.db.campaigns[id], true)
    requires !s.db.sequences[s.db.campaigns[id].sequence.value].frozen
    ensures var db' := CommitActivation(s.db, key, id, p, s.now);
            Inv(s.(db := db')) && Onward(s.db, db')
  {
    hide Preflight.SequenceIssues, Preflight.WellFormed, CampaignOk, Onward;
    var db' := CommitActivation(s.db, key, id, p, s.now);
    CommitIsOnward(s, key, id, p);
    DraftHasNoJobs(s, id);
    CommittedCampaignOk(s, key, id, p);
    forall i | i in db'.campaigns && i != id ensures CampaignOk(db', i, s.now) && JobsFor(db', i) == JobsFor(s.db, i) {
      assert CampaignOk(s.db, i, s.now);
      assert JobsFor(db', i) == JobsFor(s.db, i);
      StaysOk(s.db, db', i, s.now, s.now);
    }
    forall k | k in db'.receipts ensures ReceiptOk(db', k) {
      if k in s.db.receipts { assert ReceiptOk(s.db, k); }
    }
    forall i | i in s.db.campaigns && s.db.campaigns[i].activation.Some?
      ensures s.db.campaigns[i].activation.value.id < s.db.nextId
    {
      ActivationIdUsed(s, i);
    }
  }

  lemma ActivationIdUsed(s: State, id: int)
    requires Inv(s) && id in s.db.campaigns && s.db.campaigns[id].activation.Some?
    ensures s.db.campaigns[id].activation.value.id < s.db.nextId
  {
    assert CampaignOk(s.db, id, s.now);
  }

  lemma DraftHasNoJobs(s: State, id: int)
    requires Inv(s) && id in s.db.campaigns && s.db.campaigns[id].status.Draft?
    ensures JobsFor(s.db, id) == {}
  {
    assert CampaignOk(s.db, id, s.now);
  }

  lemma CommitIsOnward(s: State, key: Key, id: int, p: Payload)
    requires id in s.db.campaigns && key !in s.db.receipts && CampaignOk(s.db, id, s.now)
    requires s.db.campaigns[id].status.Draft? && Ready(s.db, s.db.campaigns[id], true)
    requires !s.db.sequences[s.db.campaigns[id].sequence.value].frozen
    ensures Onward(s.db, CommitActivation(s.db, key, id, p, s.now))
  {
    hide Preflight.SequenceIssues, Preflight.WellFormed;
  }

  lemma CommittedCampaignOk(s: State, key: Key, id: int, p: Payload)
    requires id in s.db.campaigns && CampaignOk(s.db, id, s.now) && JobsFor(s.db, id) == {}
    requires s.db.campaigns[id].status.Draft? && Ready(s.db, s.db.campaigns[id], true)
    ensures CampaignOk(CommitActivation(s.db, key, id, p, s.now), id, s.now)
  {
    hide Preflight.SequenceIssues, Preflight.WellFormed;
    var c := s.db.campaigns[id];
    var db' := CommitActivation(s.db, key, id, p, s.now);
    Preflight.NoIssuesIff(s.db.sequences[c.sequence.value].steps);
    var a := db'.campaigns[id].activation.value;
    assert JobsFor(db', id) == JobsFor(s.db, id) + JobsOf(id, a, s.db.audiences[a.audience].accepted);
  }

  lemma ActivateKeepsInv(s: State, key: Key, id: int, p: Payload, otherChecks: bool)
    requires Inv(s)
    ensures var db' := Activate(s.db, key, id, p, otherChecks, s.now).0;
            Inv(s.(db := db')) && Onward(s.db, db')
  {
    hide CommitActivation, Preflight.SequenceIssues, Preflight.WellFormed;
    if key in s.db.receipts { assert ReceiptOk(s.db, key); }
    if !p.startAt.WithoutOffset? && key !in s.db.receipts && ActivationError(s.db, id, p, otherChecks).None? {
      CommitKeepsInv(s, key, id, p);
    }
  }

  /** Writes that touch no campaign row, no job, no receipt and no frozen content. */
  lemma QuietStepKeepsInv(s: State, s': State)
    requires Inv(s) && s.now <= s'.now && s'.db.campaigns == s.db.campaigns && Onward(s.db, s'.db)
    requires s'.db.jobs == s.db.jobs && s'.db.receipts == s.db.receipts
    ensures Inv(s')
  {
    hide Preflight.WellFormed, CampaignOk, Onward;
    forall id | id in s'.db.campaigns ensures CampaignOk(s'.db, id, s'.now) && JobsFor(s'.db, id) == JobsFor(s.db, id) {
      assert CampaignOk(s.db, id, s.now);
      StaysOk(s.db, s'.db, id, s.now, s'.now);
    }
    forall key | key in s'.db.receipts ensures ReceiptOk(s'.db, key) {
      assert ReceiptOk(s.db, key);
    }
  }

  lemma CreateKeepsInv(s: State, id: int, sequence: int)
    requires Inv(s)
    ensures var db' := Create(s.db, id, sequence); Inv(s.(db := db')) && Onward(s.db, db')
  {
    hide Preflight.WellFormed, ActivationOk;
    var db' := Create(s.db, id, sequence);
    if db' != s.db {
      forall i | i in s.db.campaigns ensures CampaignOk(db', i, s.now) && JobsFor(db', i) == JobsFor(s.db, i) {
        assert CampaignOk(s.db, i, s.now);
        StaysOk(s.db, db', i, s.now, s.now);
      }
      assert JobsFor(db', id) == {};
      forall key | key in db'.receipts ensures ReceiptOk(db', key) {
        assert ReceiptOk(s.db, key);
      }
    }
  }

  lemma StepKeepsInv(s: State, e: Event)
    requires Inv(s)
    ensures Inv(Step(s, e)) && Onward(s.db, Step(s, e).db)
  {
    hide Inv, Onward, Change, Activate, CampaignOk;
    match e {
      case DoActivate(key, id, p, otherChecks) => ActivateKeepsInv(s, key, id, p, otherChecks);
      case DoPause(id, v) => PauseKeepsInv(s, id, v);
      case DoResume(id, v) => ResumeKeepsInv(s, id, v);
      case DoArchive(id, v) => ArchiveKeepsInv(s, id, v);
      case DoCommitAudience(id, u) => AudienceKeepsInv(s, id, u);
      case DoPlanningDone(id) => PlanningKeepsInv(s, id);
      case DoCreate(id, sequence) => CreateKeepsInv(s, id, sequence);
      case _ =>
        QuietIsOnward(s, e);
        QuietStepKeepsInv(s, Step(s, e));
    }
  }

  lemma QuietIsOnward(s: State, e: Event)
    requires e.DoEditSteps? || e.DoAudienceReady? || e.Tick?
    ensures Onward(s.db, Step(s, e).db) && Step(s, e).db.campaigns == s.db.campaigns
    ensures Step(s, e).db.jobs == s.db.jobs && Step(s, e).db.receipts == s.db.receipts && s.now <= Step(s, e).now
  {
  }

  lemma NothingChanged(s: State)
    ensures Onward(s.db, s.db)
  {
  }

  lemma PauseKeepsInv(s: State, id: int, v: int)
    requires Inv(s)
    ensures var db' := Pause(s.db, id, v).0; Inv(s.(db := db')) && Onward(s.db, db')
  {
    hide Inv, Onward, Change;
    NothingChanged(s);
    if Pause(s.db, id, v).1.Success? { StatusChangeKeepsInv(s, id, Paused); }
  }

  lemma ResumeKeepsInv(s: State, id: int, v: int)
    requires Inv(s)
    ensures var db' := Resume(s.db, id, v, s.now).0; Inv(s.(db := db')) && Onward(s.db, db')
  {
    hide Inv, Onward, Change;
    NothingChanged(s);
    if Resume(s.db, id, v, s.now).1.Success? { StatusChangeKeepsInv(s, id, ResumedStatus(s.db.campaigns[id], s.now)); }
  }

  lemma ArchiveKeepsInv(s: State, id: int, v: int)
    requires Inv(s)
    ensures var db' := Archive(s.db, id, v).0; Inv(s.(db := db')) && Onward(s.db, db')
  {
    hide Inv, Onward, Change;
    NothingChanged(s);
    if Archive(s.db, id, v).1.Success? && !s.db.campaigns[id].status.Archived? {
      StatusChangeKeepsInv(s, id, Archived);
    }
  }

  lemma AudienceKeepsInv(s: State, id: int, u: int)
    requires Inv(s)
    ensures var db' := CommitAudience(s.db, id, u); Inv(s.(db := db')) && Onward(s.db, db')
  {
    NothingChanged(s);
    if CommitAudience(s.db, id, u) != s.db {
      assert CampaignOk(s.db, id, s.now);
      RowChangeKeepsInv(s, id, CommitAudience(s.db, id, u).campaigns[id]);
    }
  }

  lemma PlanningKeepsInv(s: State, id: int)
    requires Inv(s)
    ensures var db' := PlanningDone(s.db, id); Inv(s.(db := db')) && Onward(s.db, db')
  {
    NothingChanged(s);
    if PlanningDone(s.db, id) != s.db {
      assert CampaignOk(s.db, id, s.now);
      RowChangeKeepsInv(s, id, PlanningDone(s.db, id).campaigns[id]);
    }
  }

  lemma {:induction false} RunKeepsInv(events: seq<Event>)
    ensures Inv(Run(events))
  {
    if events != [] {
      RunKeepsInv(events[..|events| - 1]);
      StepKeepsInv(Run(events[..|events| - 1]), events[|events| - 1]);
    }
  }

  // ---- Main results --------------------------------------------------------------------------------

  /**
   In every reachable state, under any history of requests and draft edits: RUNNING means the start has
   come; an activated campaign has frozen content with Email at even and Wait at odd places, exactly one
   ENROLL and one RENDER job, and an activation id no other campaign has; no receipt is pending.
   */
  lemma ReachableStatesAreSound(events: seq<Event>)
    ensures var s := Run(events);
            forall id | id in s.db.campaigns :: var c := s.db.campaigns[id];
              && (c.status.Running? ==> c.startAt.Some? && c.startAt.value <= s.now)
              && (c.activation.Some? <==> c.startAt.Some?)
              && (c.activation.Some? ==> ActivationOk(s.db, c, id))
              && (c.activation.None? ==> JobsFor(s.db, id) == {})
              && forall id' | id' in s.db.campaigns && id' != id && c.activation.Some?
                && s.db.campaigns[id'].activation.Some? ::
                   s.db.campaigns[id'].activation.value.id != c.activation.value.id
    ensures forall key | key in Run(events).db.receipts :: Run(events).db.receipts[key].completed
  {
    hide Run, Preflight.WellFormed;
    RunKeepsInv(events);
    var s := Run(events);
    forall id | id in s.db.campaigns ensures CampaignOk(s.db, id, s.now) {}
    forall key | key in s.db.receipts ensures s.db.receipts[key].completed { assert ReceiptOk(s.db, key); }
  }

  /** Every step moves every campaign onward only: allowed status edges, growing version, activation fixed once set. */
  lemma StepsOnlyMoveOnward(events: seq<Event>, e: Event)
    ensures Onward(Run(events).db, Run(events + [e]).db)
  {
    RunKeepsInv(events);
    assert (events + [e])[..|events|] == events;
    StepKeepsInv(Run(events), e);
  }

  lemma {:induction false} LongerRunsOnward(events: seq<Event>, n: nat)
    requires n <= |events|
    ensures Later(Run(events[..n]).db, Run(events).db)
    decreases |events|
  {
    hide Inv, Step;
    if n == |events| {
      assert events[..n] == events;
    } else {
      var init := events[..|events| - 1];
      assert init[..n] == events[..n];
      LongerRunsOnward(init, n);
      RunKeepsInv(init);
      StepKeepsInv(Run(init), events[|events| - 1]);
    }
  }

  /** The campaign gets its activation in this step. */
  ghost predicate NewlyActivated(before: Db, after: Db, id: int) {
    id in after.campaigns && after.campaigns[id].activation.Some?
    && !(id in before.campaigns && before.campaigns[id].activation.Some?)
  }

  /** Event `k` of the history is the one that activates campaign `id`. */
  ghost predicate ActivatesAt(events: seq<Event>, k: nat, id: int)
    requires k < |events|
  {
    var before, after := Run(events[..k]).db, Run(events[..k + 1]).db;
    NewlyActivated(before, after, id)
  }

  /** Each campaign is activated at most once in a history. */
  lemma ActivatedAtMostOnce(events: seq<Event>, j: nat, k: nat, id: int)
    requires j < |events| && k < |events| && ActivatesAt(events, j, id) && ActivatesAt(events, k, id)
    ensures j == k
  {
    hide Run;
    if j < k {
      assert events[..k][..j + 1] == events[..j + 1];
      LongerRunsOnward(events[..k], j + 1);
    } else if k < j {
      assert events[..j][..k + 1] == events[..k + 1];
      LongerRunsOnward(events[..j], k + 1);
    }
  }

  /** After an activation has answered, its key is settled: whoever sends it again changes nothing. */
  lemma KeySettled(events: seq<Event>, later: seq<Event>, key: Key, id: int, p: Payload, otherChecks: bool)
    requires var s := Run(events); Activate(s.db, key, id, p, otherChecks, s.now).1.Success? && key !in s.db.receipts
    ensures var s := Run(events + [DoActivate(key, id, p, otherChecks)] + later);
            && (forall id', o' :: Activate(s.db, key, id', p, o', s.now) == (s.db, Replayed(s.db, id')))
            && (forall id', p', o' | p' != p && !p'.startAt.WithoutOffset? ::
                  Activate(s.db, key, id', p', o', s.now) == (s.db, Failure(KeyReused)))
            && id in s.db.campaigns && s.db.campaigns[id].activation == Some(AnswerOf(events, key, id, p, otherChecks))
  {
    hide ActivationError, Ready, Inv;
    var e := DoActivate(key, id, p, otherChecks);
    var first, all := events + [e], events + [e] + later;
    assert first[..|events|] == events && all[..|first|] == first;
    assert Run(first) == Step(Run(events), e);
    var db := Run(first).db;
    assert key in db.receipts && db.receipts[key].payload == p && db.receipts[key].completed;
    LongerRunsOnward(all, |first|);
  }

  /** The activation a successful first request sets. */
  ghost function AnswerOf(events: seq<Event>, key: Key, id: int, p: Payload, otherChecks: bool): Activated
    requires var s := Run(events); Activate(s.db, key, id, p, otherChecks, s.now).1.Success? && key !in s.db.receipts
  {
    Activate(Run(events).db, key, id, p, otherChecks, Run(events).now).1.value.activation.value
  }

  /** A refused request leaves the database as it was. */
  lemma RefusalChangesNothing(db: Db, key: Key, id: int, p: Payload, otherChecks: bool, now: int)
    ensures Activate(db, key, id, p, otherChecks, now).1.Failure? ==> Activate(db, key, id, p, otherChecks, now).0 == db
    ensures Activate(db, key, id, p, otherChecks, now).1 == Failure(KeyReused) <==>
              !p.startAt.WithoutOffset? && key in db.receipts && db.receipts[key].payload != p
  {
  }

  // ---- What each request gives, in the words of the rows ---------------------------------------------

  /** Only this campaign's row differs. */
  ghost predicate OnlyRow(a: Db, b: Db, id: int) {
    && a.campaigns.Keys == b.campaigns.Keys
      && (forall i | i in a.campaigns && i != id :: b.campaigns[i] == a.campaigns[i])
    && b.sequences == a.sequences && b.audiences == a.audiences && b.receipts == a.receipts
    && b.jobs == a.jobs && b.nextId == a.nextId
  }

  /** The row has this status and one version more, and is otherwise as it was. */
  ghost predicate NextVersion(c: Campaign, c': Campaign, status: Status) {
    c' == Campaign(status, c.version + 1, c.startAt, c.activation, c.sequence, c.audience)
  }

  /** Well-formed content, somebody in the audience, and every other check passed. */
  ghost predicate Complete(db: Db, c: Campaign, otherChecks: bool) {
    && otherChecks && c.sequence.Some? && c.sequence.value in db.sequences
    && Preflight.WellFormed(db.sequences[c.sequence.value].steps)
    && c.audience.Some? && c.audience.value in db.audiences && db.audiences[c.audience.value].accepted > 0
  }

  /** A complete draft whose content is not frozen can be activated. */
  ghost predicate Activatable(db: Db, c: Campaign, otherChecks: bool) {
    c.status == Draft && Complete(db, c, otherChecks) && !db.sequences[c.sequence.value].frozen
  }

  /**
   Exactly when a first activation succeeds, and what it writes: the campaign starts now or at the instant asked
   for, with a new activation of its sequence and audience; the sequence is frozen as it is; the two jobs count the
   accepted members; the receipt is settled. Nothing else changes.
   */
  lemma FirstActivation(db: Db, key: Key, id: int, p: Payload, otherChecks: bool, now: int)
    requires key !in db.receipts
    ensures var (db', answer) := Activate(db, key, id, p, otherChecks, now);
            && (answer.Success? <==>
                  && p.startAt != WithoutOffset && id in db.campaigns && db.campaigns[id].version == p.expectedVersion
                  && Activatable(db, db.campaigns[id], otherChecks))
            && (answer.Success? ==>
                  var c := db.campaigns[id];
                  var sequence, audience := c.sequence.value, c.audience.value;
                  var start := if p.startAt.At? && p.startAt.instant > now then p.startAt.instant else now;
                  var a := Activated(db.nextId, sequence, audience);
                  var total := db.audiences[audience].accepted;
                  && answer.value
                     == Campaign(if start > now then Scheduled else Running, c.version + 1, Some(start), Some(a),
                                 Some(sequence), Some(audience))
                  && db' == Db(db.campaigns[id := answer.value],
                               db.sequences[sequence := db.sequences[sequence].(frozen := true)], db.audiences,
                               db.receipts[key := Receipt(p, true, id, c.version + 1)],
                               db.jobs + {Job(id, db.nextId, sequence, Enroll, total),
                                          Job(id, db.nextId, sequence, Render, total)},
                               db.nextId + 1))
  {
    hide Preflight.SequenceIssues, Preflight.WellFormed;
    if id in db.campaigns && db.campaigns[id].sequence.Some? && db.campaigns[id].sequence.value in db.sequences {
      Preflight.NoIssuesIff(db.sequences[db.campaigns[id].sequence.value].steps);
    }
  }

  /** Pausing: exactly RUNNING and SCHEDULED campaigns at the expected version; the row keeps its start. */
  lemma PauseGives(db: Db, id: int, v: int)
    ensures var (db', answer) := Pause(db, id, v);
            && (answer.Success? <==>
                  id in db.campaigns && db.campaigns[id].version == v
                    && db.campaigns[id].status in {Running, Scheduled})
            && OnlyRow(db, db', id) && (answer.Failure? ==> db' == db)
            && (answer.Success? ==>
                  NextVersion(db.campaigns[id], db'.campaigns[id], Paused) && answer.value == db'.campaigns[id])
  {
  }

  /**
   Archiving: everything but RUNNING at the expected version; an archived campaign answers as it is, at any
   version.
   */
  lemma ArchiveGives(db: Db, id: int, v: int)
    ensures var (db', answer) := Archive(db, id, v);
            && (answer.Success? <==>
                  && id in db.campaigns
                  && (db.campaigns[id].status == Archived
                    || (db.campaigns[id].status != Running && db.campaigns[id].version == v)))
            && OnlyRow(db, db', id) && (answer.Failure? ==> db' == db)
            && (answer.Success? ==>
                  && answer.value == db'.campaigns[id]
                  && if db.campaigns[id].status == Archived then db' == db
                     else NextVersion(db.campaigns[id], db'.campaigns[id], Archived))
  {
  }

  /** Resuming, after any history: RUNNING if the start has come, SCHEDULED if it has not. */
  lemma ResumeGives(events: seq<Event>, id: int, v: int)
    requires var s := Run(events);
             id in s.db.campaigns && s.db.campaigns[id].status.Paused? && s.db.campaigns[id].version == v
    ensures var s, s' := Run(events), Run(events + [DoResume(id, v)]);
            var c := s.db.campaigns[id];
            && OnlyRow(s.db, s'.db, id) && c.startAt.Some? && s'.now == s.now
            && NextVersion(c, s'.db.campaigns[id], if c.startAt.value <= s.now then Running else Scheduled)
            && Resume(s.db, id, v, s.now).1 == Success(s'.db.campaigns[id])
  {
    hide Run;
    RunKeepsInv(events);
    assert CampaignOk(Run(events).db, id, Run(events).now);
    RunOneMore(events, DoResume(id, v));
  }

  /**
   Pausing and resuming, any time apart: a RUNNING campaign runs again. A SCHEDULED one waits on if its start is
   still ahead, and runs if the start passed meanwhile, which is the only way it ever starts.
   */
  lemma PauseThenResume(events: seq<Event>, id: int, v: int, seconds: nat)
    requires var s := Run(events);
             && id in s.db.campaigns && s.db.campaigns[id].version == v
             && (s.db.campaigns[id].status.Running? || s.db.campaigns[id].status.Scheduled?)
    ensures var s, s' := Run(events), Run(events + [DoPause(id, v), Tick(seconds), DoResume(id, v + 1)]);
            var c := s.db.campaigns[id];
            && OnlyRow(s.db, s'.db, id) && c.startAt.Some?
            && s'.db.campaigns[id] == c.(version := v + 2,
                 status := if c.status.Running? || c.startAt.value <= s.now + seconds then Running else Scheduled)
  {
    hide Run;
    RunKeepsInv(events);
    assert CampaignOk(Run(events).db, id, Run(events).now);
    var paused := events + [DoPause(id, v)];
    RunOneMore(events, DoPause(id, v));
    RunOneMore(paused, Tick(seconds));
    ResumeGives(paused + [Tick(seconds)], id, v + 1);
    assert events + [DoPause(id, v), Tick(seconds), DoResume(id, v + 1)]
      == paused + [Tick(seconds)] + [DoResume(id, v + 1)];
  }

  /** The reason a pause, resume or archive is refused for, from the row alone. */
  ghost predicate RefusedFor(answer: Result<Campaign, Error>, db: Db, id: int, allowed: set<Status>, v: int) {
    && (answer == Failure(NotFound) <==> id !in db.campaigns)
    && (answer == Failure(StateConflict) <==> id in db.campaigns && db.campaigns[id].status !in allowed)
    && (answer == Failure(VersionConflict) <==>
          id in db.campaigns && db.campaigns[id].status in allowed && db.campaigns[id].version != v)
    && (answer.Failure? ==> answer.error in {NotFound, StateConflict, VersionConflict})
  }

  /** A refused request names the first reason: unknown, then the wrong status, then the wrong version. */
  lemma RefusalReasons(db: Db, id: int, v: int, now: int)
    ensures RefusedFor(Pause(db, id, v).1, db, id, {Running, Scheduled}, v)
    ensures RefusedFor(Resume(db, id, v, now).1, db, id, {Paused}, v)
    ensures id !in db.campaigns || !db.campaigns[id].status.Archived? ==>
              RefusedFor(Archive(db, id, v).1, db, id, {Draft, Scheduled, Paused}, v)
    ensures Resume(db, id, v, now).1.Failure? ==> Resume(db, id, v, now).0 == db
  {
  }

  /** A refused first activation names the first check that fails. */
  lemma ActivationRefusals(db: Db, key: Key, id: int, p: Payload, otherChecks: bool, now: int)
    requires key !in db.receipts
    ensures var answer := Activate(db, key, id, p, otherChecks, now).1;
            var draft := id in db.campaigns && db.campaigns[id].status == Draft;
            var current := draft && db.campaigns[id].version == p.expectedVersion;
            var ready := current && Complete(db, db.campaigns[id], otherChecks);
            && (answer == Failure(ValidationError) <==> p.startAt == WithoutOffset)
            && (p.startAt != WithoutOffset ==>
                  && (answer == Failure(NotFound) <==> id !in db.campaigns)
                  && (answer == Failure(StateConflict) <==> id in db.campaigns && !draft)
                  && (answer == Failure(VersionConflict) <==> draft && !current)
                  && (answer == Failure(NotReady) <==> current && !ready)
                  && (answer == Failure(SequenceConflict) <==>
                        ready && db.sequences[db.campaigns[id].sequence.value].frozen))
  {
    hide Preflight.SequenceIssues, Preflight.WellFormed;
    if id in db.campaigns && db.campaigns[id].sequence.Some? && db.campaigns[id].sequence.value in db.sequences {
      Preflight.NoIssuesIff(db.sequences[db.campaigns[id].sequence.value].steps);
    }
  }

  /**
   Work on drafts, after any history: a new campaign is a draft with an empty sequence of its own; steps change in
   unfrozen sequences only; a draft takes an audience of its own that is ready.
   */
  lemma DraftWork(events: seq<Event>, id: int, sequence: int, steps: seq<Preflight.Step>, audience: int)
    ensures var db, db' := Run(events).db, Run(events + [DoCreate(id, sequence)]).db;
            if id in db.campaigns || sequence in db.sequences then db' == db
            else db' == Db(db.campaigns[id := Campaign(Draft, 1, None, None, Some(sequence), None)],
                           db.sequences[sequence := Sequence(id, [], false)],
                           db.audiences, db.receipts, db.jobs, db.nextId)
    ensures var db, db' := Run(events).db, Run(events + [DoEditSteps(sequence, steps)]).db;
            if sequence !in db.sequences || db.sequences[sequence].frozen then db' == db
            else
              var edited := Sequence(db.sequences[sequence].campaign, steps, false);
              db' == Db(db.campaigns, db.sequences[sequence := edited], db.audiences, db.receipts, db.jobs, db.nextId)
    ensures var db, db' := Run(events).db, Run(events + [DoCommitAudience(id, audience)]).db;
            if id !in db.campaigns || db.campaigns[id].status != Draft
               || audience !in db.audiences || db.audiences[audience].campaign != id then db' == db
            else
              && OnlyRow(db, db', id)
              && var c := db.campaigns[id];
              db'.campaigns[id] == Campaign(Draft, c.version + 1, c.startAt, c.activation, c.sequence, Some(audience))
  {
    hide Run;
    RunOneMore(events, DoCreate(id, sequence));
    RunOneMore(events, DoEditSteps(sequence, steps));
    RunOneMore(events, DoCommitAudience(id, audience));
  }

  /** The workers' marks: an audience is stored once when it is ready, and planning done counts one version up. */
  lemma WorkerMarks(events: seq<Event>, id: int, audience: int, accepted: nat, seconds: nat)
    ensures var db, db' := Run(events).db, Run(events + [DoAudienceReady(audience, id, accepted)]).db;
            if audience in db.audiences || id !in db.campaigns then db' == db
            else db' == Db(db.campaigns, db.sequences, db.audiences[audience := Audience(id, accepted)], db.receipts,
                           db.jobs, db.nextId)
    ensures var db, db' := Run(events).db, Run(events + [DoPlanningDone(id)]).db;
            if id !in db.campaigns || db.campaigns[id].activation == None then db' == db
            else OnlyRow(db, db', id) && NextVersion(db.campaigns[id], db'.campaigns[id], db.campaigns[id].status)
    ensures var s, s' := Run(events), Run(events + [Tick(seconds)]);
            s'.db == s.db && s'.now == s.now + seconds
  {
    hide Run;
    RunOneMore(events, DoAudienceReady(audience, id, accepted));
    RunOneMore(events, DoPlanningDone(id));
    RunOneMore(events, Tick(seconds));
  }

  // ---- What resume does not check -------------------------------------------------------------------

  /**
   Resume is promised to revalidate the campaign. It looks at status and version of the row and at nothing else.
   What activation froze still passes in every reachable state, so a resumed campaign is ready exactly when the
   checks that resume leaves out hold: those of mailboxes, schedule and settings.
   */
  lemma ResumedIsReadyIff(events: seq<Event>, id: int, v: int, otherChecks: bool)
    ensures var s := Run(events);
            && (Resume(s.db, id, v, s.now).1.Success?
                <==> id in s.db.campaigns && s.db.campaigns[id].status.Paused? && s.db.campaigns[id].version == v)
            && (forall db: Db | id in s.db.campaigns && id in db.campaigns && db.campaigns[id] == s.db.campaigns[id] ::
                  Resume(db, id, v, s.now).1 == Resume(s.db, id, v, s.now).1)
            && var (db', answer) := Resume(s.db, id, v, s.now);
               answer.Success? ==> (Ready(db', answer.value, otherChecks) <==> otherChecks)
  {
    hide Run, Preflight.SequenceIssues, Preflight.WellFormed, JobsFor;
    RunKeepsInv(events);
    var s := Run(events);
    if Resume(s.db, id, v, s.now).1.Success? {
      assert CampaignOk(s.db, id, s.now);
      Preflight.NoIssuesIff(s.db.sequences[s.db.campaigns[id].sequence.value].steps);
    }
  }

  // ---- What replay does not check -------------------------------------------------------------------

  /** Event `k` is a request under this key, and it activates the campaign. */
  ghost predicate ActivatesUnder(events: seq<Event>, k: nat, key: Key, id: int)
    requires k < |events|
  {
    events[k].DoActivate? && events[k].key == key && ActivatesAt(events, k, id)
  }

  /** Some request of the history under this key activated the campaign. */
  ghost predicate ActivatedBy(events: seq<Event>, key: Key, id: int) {
    exists k: nat :: k < |events| && ActivatesUnder(events, k, key, id)
  }

  ghost predicate ReceiptNames(db: Db, key: Key, id: int) {
    key in db.receipts && db.receipts[key].campaign == id
  }

  lemma StepNames(s: State, e: Event, key: Key, id: int)
    requires Inv(s)
    ensures ReceiptNames(Step(s, e).db, key, id) <==>
            ReceiptNames(s.db, key, id) || (e.DoActivate? && e.key == key && NewlyActivated(s.db, Step(s, e).db, id))
  {
    hide Preflight.SequenceIssues, Preflight.WellFormed, ActivationOk, JobsFor;
    if e.DoActivate? {
      if e.key in s.db.receipts { assert ReceiptOk(s.db, e.key); }
      if e.id in s.db.campaigns { assert CampaignOk(s.db, e.id, s.now); }
    }
  }

  lemma RunOneMore(events: seq<Event>, e: Event)
    ensures Run(events + [e]) == Step(Run(events), e)
  {
    assert (events + [e])[..|events|] == events;
  }

  lemma LastOrEarlier(init: seq<Event>, e: Event, key: Key, id: int)
    ensures ActivatedBy(init + [e], key, id) <==>
            ActivatedBy(init, key, id)
            || (e.DoActivate? && e.key == key && NewlyActivated(Run(init).db, Step(Run(init), e).db, id))
  {
    hide Step, Run, NewlyActivated;
    var events, n := init + [e], |init|;
    assert events[..n] == init && events[..n + 1] == events;
    RunOneMore(init, e);
    forall k: nat | k < n ensures ActivatesUnder(events, k, key, id) <==> ActivatesUnder(init, k, key, id) {
      assert events[..k] == init[..k] && events[..k + 1] == init[..k + 1];
    }
    assert ActivatesUnder(events, n, key, id)
      <==> e.DoActivate? && e.key == key && NewlyActivated(Run(init).db, Step(Run(init), e).db, id);
  }

  /** A receipt names exactly the campaign that a request under its key activated. */
  lemma {:induction false} ReceiptNamesActivated(events: seq<Event>, key: Key, id: int)
    ensures ActivatedBy(events, key, id) <==> ReceiptNames(Run(events).db, key, id)
  {
    hide Step, Inv, ActivatedBy;
    if events == [] {
      NothingActivated(key, id);
    } else {
      var init, e := events[..|events| - 1], events[|events| - 1];
      assert events == init + [e];
      ReceiptNamesActivated(init, key, id);
      RunKeepsInv(init);
      StepNames(Run(init), e, key, id);
      LastOrEarlier(init, e, key, id);
    }
  }

  lemma NothingActivated(key: Key, id: int)
    ensures !ActivatedBy([], key, id) && !ReceiptNames(Run([]).db, key, id)
  {
  }

  /**
   A success is supposed to mean that this command activated the campaign it names. It does so exactly
   when the key is new or was used for this campaign; a key of another campaign answers the row as it stands.
   */
  lemma SuccessMeansActivatedIff(events: seq<Event>, key: Key, id: int, p: Payload, otherChecks: bool)
    requires var s := Run(events); Activate(s.db, key, id, p, otherChecks, s.now).1.Success?
    ensures var s, e := Run(events), DoActivate(key, id, p, otherChecks);
            var answer := Activate(s.db, key, id, p, otherChecks, s.now).1.value;
            && (ActivatedBy(events + [e], key, id) <==> key !in s.db.receipts || s.db.receipts[key].campaign == id)
            && (ActivatedBy(events + [e], key, id) ==> answer.activation.Some?)
            && (!ActivatedBy(events + [e], key, id) ==> Run(events + [e]) == s && answer == s.db.campaigns[id])
  {
    hide Run, ActivationError, Ready, CampaignOk, ActivatedBy;
    RunKeepsInv(events);
    var s, e := Run(events), DoActivate(key, id, p, otherChecks);
    ReceiptNamesActivated(events + [e], key, id);
    assert Run(events + [e]) == Step(s, e) by { RunOneMore(events, e); }
    if key in s.db.receipts { assert ReceiptOk(s.db, key); }
  }

  const ONE_EMAIL := [Preflight.Step(Preflight.Email, 1, true, true, true, true)]
  const REQUEST := Payload(2, Unset)
  const KEY := Key(7, 70)

  /** Two drafts ready to go, with one Email step and three accepted members each. */
  const TWO_DRAFTS := Db(map[1 := Campaign(Draft, 2, None, None, Some(11), Some(5)),
                             2 := Campaign(Draft, 2, None, None, Some(12), Some(6))],
                         map[11 := Sequence(1, ONE_EMAIL, false), 12 := Sequence(2, ONE_EMAIL, false)],
                         map[5 := Audience(1, 3), 6 := Audience(2, 3)], map[], {}, 0)

  /** How a history comes to the two drafts. */
  function DraftOf(id: int, sequence: int, audience: int): seq<Event> {
    [DoCreate(id, sequence), DoEditSteps(sequence, ONE_EMAIL), DoAudienceReady(audience, id, 3),
      DoCommitAudience(id, audience)]
  }

  function DraftsHistory(): seq<Event> { DraftOf(1, 11, 5) + DraftOf(2, 12, 6) }

  lemma RunFour(before: seq<Event>, a: Event, b: Event, c: Event, d: Event)
    ensures Run(before + [a, b, c, d]) == Step(Step(Step(Step(Run(before), a), b), c), d)
  {
    hide Step;
    assert before + [a, b, c, d] == (((before + [a]) + [b]) + [c]) + [d];
    assert Run(before + [a]) == Step(Run(before), a);
    assert Run((before + [a]) + [b]) == Step(Run(before + [a]), b);
    assert Run(((before + [a]) + [b]) + [c]) == Step(Run((before + [a]) + [b]), c);
  }

  lemma DraftsReached()
    ensures Run(DraftsHistory()) == State(TWO_DRAFTS, 0)
  {
    var first := DraftOf(1, 11, 5);
    assert [] + first == first;
    assert Run([]) == EMPTY;
    hide Run, Step;
    RunFour([], DoCreate(1, 11), DoEditSteps(11, ONE_EMAIL), DoAudienceReady(5, 1, 3), DoCommitAudience(1, 5));
    DraftMade(EMPTY, 1, 11, 5);
    RunFour(first, DoCreate(2, 12), DoEditSteps(12, ONE_EMAIL), DoAudienceReady(6, 2, 3), DoCommitAudience(2, 6));
    DraftMade(Run(first), 2, 12, 6);
    assert Run(DraftsHistory()).db == TWO_DRAFTS;
  }

  lemma DraftMade(s: State, id: int, sequence: int, audience: int)
    requires id !in s.db.campaigns && sequence !in s.db.sequences && audience !in s.db.audiences
    ensures Step(Step(Step(Step(s, DoCreate(id, sequence)), DoEditSteps(sequence, ONE_EMAIL)),
                      DoAudienceReady(audience, id, 3)),
                 DoCommitAudience(id, audience))
            == s.(db := s.db.(campaigns := s.db.campaigns[id := Campaign(Draft, 2, None, None,
                                                                             Some(sequence), Some(audience))],
                              sequences := s.db.sequences[sequence := Sequence(id, ONE_EMAIL, false)],
                              audiences := s.db.audiences[audience := Audience(id, 3)]))
  {
  }

  /**
   A reachable failure: the first campaign is activated under a key; the very same request sent for the
   second campaign answers success while the second campaign stays a draft.
   */
  lemma KeyOfAnotherCampaignAnswersSuccess()
    ensures var s := Run(DraftsHistory() + [DoActivate(KEY, 1, REQUEST, true)]);
            && 1 in s.db.campaigns && s.db.campaigns[1].status.Running?
            && 2 in s.db.campaigns && s.db.campaigns[2].status.Draft?
            && Activate(s.db, KEY, 2, REQUEST, true, s.now) == (s.db, Success(s.db.campaigns[2]))
  {
    DraftsReached();
    hide Run;
    var e := DoActivate(KEY, 1, REQUEST, true);
    OneMore(DraftsHistory(), e);
    assert Preflight.SequenceIssues(ONE_EMAIL) == [] by { OneEmailPasses(); }
    assert Ready(TWO_DRAFTS, TWO_DRAFTS.campaigns[1], true);
    assert ActivationError(TWO_DRAFTS, 1, REQUEST, true).None?;
  }

  lemma OneMore(events: seq<Event>, e: Event)
    ensures Run(events + [e]) == Step(Run(events), e)
  {
    assert (events + [e])[..|events|] == events;
  }

  lemma OneEmailPasses()
    ensures Preflight.SequenceIssues(ONE_EMAIL) == []
  {
    Preflight.NoIssuesIff(ONE_EMAIL);
  }

  // ---- A scheduled start ------------------------------------------------------------------------------

  /** `id` is waiting for its start. */
  ghost predicate Waiting(s: State, id: int) {
    id in s.db.campaigns && s.db.campaigns[id].status.Scheduled?
  }

  lemma {:induction false} RunSplit(events: seq<Event>, later: seq<Event>)
    ensures later != [] ==>
      Run(events + later) == Step(Run(events + later[..|later| - 1]), later[|later| - 1])
  {
    if later != [] {
      assert (events + later)[..|events + later| - 1] == events + later[..|later| - 1];
    }
  }

  /**
   A scheduled campaign never starts by itself: however far the clock moves past its start, it stays
   SCHEDULED until somebody pauses or archives it.
   */
  lemma {:induction false} ScheduledNeverStartsByItself(events: seq<Event>, later: seq<Event>, id: int)
    requires Waiting(Run(events), id)
    requires forall e | e in later :: !(e.DoPause? && e.id == id) && !(e.DoArchive? && e.id == id)
    ensures Waiting(Run(events + later), id)
  {
    hide Run, ActivationError;
    if later == [] {
      assert events + later == events;
    } else {
      var init, last := later[..|later| - 1], later[|later| - 1];
      assert later == init + [last];
      ScheduledNeverStartsByItself(events, init, id);
      RunSplit(events, later);
      var s := Run(events + init);
      if last.DoActivate? { DraftOnly(s.db, last.id); }
    }
  }

  lemma DraftOnly(db: Db, id: int)
    ensures forall p, o :: ActivationError(db, id, p, o).None? ==> id in db.campaigns && db.campaigns[id].status.Draft?
  {
  }

  // ---- The service -------------------------------------------------------------------------------------

  class ActivationService {
    var campaigns: map<int, Campaign>
    var sequences: map<int, Sequence>
    var audiences: map<int, Audience>
    var receipts: map<Key, Receipt>
    var jobs: set<Job>
    var nextId: int

    function Snapshot(): Db
      reads this
    {
      Db(campaigns, sequences, audiences, receipts, jobs, nextId)
    }

    constructor (db: Db)
      ensures Snapshot() == db
    {
      campaigns, sequences, audiences := db.campaigns, db.sequences, db.audiences;
      receipts, jobs, nextId := db.receipts, db.jobs, db.nextId;
    }

    /** Opens or finds the receipt of a command; a new one is pending. */
    method ResolveReceipt(key: Key, id: int, p: Payload) returns (r: Result<Receipt, Error>)
      modifies this`receipts
      ensures r == if key in old(receipts) && old(receipts)[key].payload != p then Failure(KeyReused)
                   else if key in old(receipts) then Success(old(receipts)[key])
                   else Success(Receipt(p, false, id, 0))
      ensures receipts == if key in old(receipts) then old(receipts) else old(receipts)[key := Receipt(p, false, id, 0)]
    {
      if key in receipts {
        if receipts[key].payload != p { return Failure(KeyReused); }
        return Success(receipts[key]);
      }
      receipts := receipts[key := Receipt(p, false, id, 0)];
      return Success(receipts[key]);
    }

    method ActivateCampaign(key: Key, id: int, p: Payload, otherChecks: bool, now: int) returns (r: Result<Campaign,
          Error>)
      modifies this
      ensures (Snapshot(), r) == Activate(old(Snapshot()), key, id, p, otherChecks, now)
    {
      hide Preflight.SequenceIssues;
      if p.startAt.WithoutOffset? { return Failure(ValidationError); }
      var savepoint := receipts;  // what a rollback restores
      var receipt := ResolveReceipt(key, id, p);
      if receipt.Failure? { return Failure(receipt.error); }
      if receipt.value.completed {
        if id !in campaigns { return Failure(NotFound); }
        return Success(campaigns[id]);
      }
      var error := ActivationError(Snapshot(), id, p, otherChecks);
      if error.Some? {
        receipts := savepoint;
        return Failure(error.value);
      }
      var c := campaigns[id];
      var sequence, audience := c.sequence.value, c.audience.value;
      sequences := sequences[sequence := sequences[sequence].(frozen := true)];
      var activation := Activated(nextId, sequence, audience);
      nextId := nextId + 1;
      campaigns := campaigns[id := ActivatedCampaign(c, activation, p.startAt, now)];
      var total := audiences[audience].accepted;
      jobs := jobs + {Job(id, activation.id, sequence, Enroll, total)};
      jobs := jobs + {Job(id, activation.id, sequence, Render, total)};
      receipts := receipts[key := receipts[key].(completed := true, responseVersion := campaigns[id].version)];
      assert jobs == old(jobs) + JobsOf(id, activation, total);
      assert receipts == old(receipts)[key := receipts[key]];
      return Success(campaigns[id]);
    }

    method PauseCampaign(id: int, expectedVersion: int) returns (r: Result<Campaign, Error>)
      modifies this`campaigns
      ensures (Snapshot(), r) == Pause(old(Snapshot()), id, expectedVersion)
    {
      if id !in campaigns { return Failure(NotFound); }
      var c := campaigns[id];
      if !(c.status.Running? || c.status.Scheduled?) { return Failure(StateConflict); }
      if c.version != expectedVersion { return Failure(VersionConflict); }
      campaigns := campaigns[id := c.(status := Paused, version := c.version + 1)];
      return Success(campaigns[id]);
    }

    method ResumeCampaign(id: int, expectedVersion: int, now: int) returns (r: Result<Campaign, Error>)
      modifies this`campaigns
      ensures (Snapshot(), r) == Resume(old(Snapshot()), id, expectedVersion, now)
    {
      if id !in campaigns { return Failure(NotFound); }
      var c := campaigns[id];
      if !c.status.Paused? { return Failure(StateConflict); }
      if c.version != expectedVersion { return Failure(VersionConflict); }
      var status := if c.startAt.None? || c.startAt.value <= now then Running else Scheduled;
      campaigns := campaigns[id := c.(status := status, version := c.version + 1)];
      return Success(campaigns[id]);
    }

    method ArchiveCampaign(id: int, expectedVersion: int) returns (r: Result<Campaign, Error>)
      modifies this`campaigns
      ensures (Snapshot(), r) == Archive(old(Snapshot()), id, expectedVersion)
    {
      if id !in campaigns { return Failure(NotFound); }
      var c := campaigns[id];
      if c.status.Archived? { return Success(c); }
      if c.status.Running? { return Failure(StateConflict); }
      if c.version != expectedVersion { return Failure(VersionConflict); }
      campaigns := campaigns[id := c.(status := Archived, version := c.version + 1)];
      return Success(campaigns[id]);
    }
  }
}
