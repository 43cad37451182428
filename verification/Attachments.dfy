/**
 Files attached to email steps (backend/app/modules/campaigns/attachment_service.py, limits in attachments.py):
 rows in a table, objects in a bucket, copied rows sharing one object. Calls run one after another and each
 commits with its storage calls.
 */
module Attachments {
  import opened Wrappers

  const MAX_FILE_BYTES := 2_621_440
  const MAX_TOTAL_BYTES := 2_621_440
  const MAX_ATTACHMENTS := 5
  const MAX_INLINE_IMAGES := 10

  datatype Disposition = Attachment | Inline

  /** A row; its step and content id identify it. `sha` is the digest of the bytes. */
  datatype Row = Row(step: int, disposition: Disposition, contentId: int, key: int, size: nat, sha: int)

  /** A sequence step: is it an Email step, and is its campaign still a draft. */
  datatype StepInfo = StepInfo(email: bool, draft: bool)

  /** What an upload brings: its bytes' length and digest, and whether type and signature checks pass. */
  datatype File = File(size: nat, sha: int, allowed: bool)

  /** `rows` in insertion order; `objects` the keys live in the bucket; every key made so far is below `nextKey`. */
  datatype Store = Store(steps: map<int, StepInfo>, rows: seq<Row>, objects: set<int>, nextKey: int)

  datatype Error = NotFound | NotAnEmail | NotDraft | InvalidFile | TooMany | TooLarge | StorageFailed | Conflict

  // ---- The table -------------------------------------------------------------------------------

  function OfStep(rows: seq<Row>, step: int): seq<Row> {
    if rows == [] then []
    else OfStep(rows[..|rows| - 1], step) + if rows[|rows| - 1].step == step then [rows[|rows| - 1]] else []
  }

  function Count(rows: seq<Row>, d: Disposition): nat {
    if rows == [] then 0 else Count(rows[..|rows| - 1], d) + if rows[|rows| - 1].disposition == d then 1 else 0
  }

  function Total(rows: seq<Row>): nat {
    if rows == [] then 0 else Total(rows[..|rows| - 1]) + rows[|rows| - 1].size
  }

  function Without(rows: seq<Row>, step: int, contentId: int): seq<Row> {
    if rows == [] then []
    else
      var last := rows[|rows| - 1];
      Without(rows[..|rows| - 1], step, contentId)
      + if last.step == step && last.contentId == contentId then [] else [last]
  }

  function WithoutStep(rows: seq<Row>, step: int): seq<Row> {
    if rows == [] then []
    else WithoutStep(rows[..|rows| - 1], step) + if rows[|rows| - 1].step == step then [] else [rows[|rows| - 1]]
  }

  function Moved(rows: seq<Row>, step: int): seq<Row> {
    seq(|rows|, i requires 0 <= i < |rows| => rows[i].(step := step))
  }

  predicate SameFile(r: Row, sha: int, d: Disposition) { r.sha == sha && r.disposition == d }

  /** The unique keys of the table: content id, and digest with kind, each within the step. */
  predicate Clashes(a: Row, b: Row) {
    a.step == b.step && (a.contentId == b.contentId || SameFile(a, b.sha, b.disposition))
  }

  /** The first row of that file, in listing order. */
  function FindFile(rows: seq<Row>, sha: int, d: Disposition): (r: Option<Row>)
    ensures r.Some? ==> r.value in rows && SameFile(r.value, sha, d)
    ensures r.None? <==> forall x | x in rows :: !SameFile(x, sha, d)
  {
    if rows == [] then None
    else if SameFile(rows[0], sha, d) then Some(rows[0])
    else FindFile(rows[1..], sha, d)
  }

  function FindRow(rows: seq<Row>, contentId: int): (r: Option<Row>)
    ensures r.Some? ==> r.value in rows && r.value.contentId == contentId
    ensures r.None? <==> forall x | x in rows :: x.contentId != contentId
  {
    if rows == [] then None
    else if rows[0].contentId == contentId then Some(rows[0])
    else FindRow(rows[1..], contentId)
  }

  function Limit(d: Disposition): nat { if d.Attachment? then MAX_ATTACHMENTS else MAX_INLINE_IMAGES }

  // ---- Requests as functions ------------------------------------------------------------------------

  function StepError(s: Store, step: int): Option<Error> {
    if step !in s.steps then Some(NotFound)
    else if !s.steps[step].email then Some(NotAnEmail)
    else if !s.steps[step].draft then Some(NotDraft)
    else None
  }

  predicate Valid(f: File) { 1 <= f.size <= MAX_FILE_BYTES && f.allowed }

  /** The limits, against the rows the step has now. */
  function LimitError(existing: seq<Row>, f: File, d: Disposition): Option<Error> {
    if Count(existing, d) >= Limit(d) then Some(TooMany)
    else if Total(existing) + f.size > MAX_TOTAL_BYTES then Some(TooLarge)
    else None
  }

  function NewRow(s: Store, step: int, f: File, d: Disposition, contentId: int): Row {
    Row(step, d, contentId, s.nextKey, f.size, f.sha)
  }

  /** The object is uploaded first; a row the unique keys refuse drops it again. `contentId` is drawn at random. */
  function Upload(s: Store, step: int, f: File, d: Disposition, contentId: int, bucketUp: bool): (Store, Result<(Row,
        bool), Error>) {
    if StepError(s, step).Some? then (s, Failure(StepError(s, step).value))
    else if !Valid(f) then (s, Failure(InvalidFile))
    else
      var existing := OfStep(s.rows, step);
      var duplicate := FindFile(existing, f.sha, d);
      if duplicate.Some? then (s, Success((duplicate.value, false)))
      else if LimitError(existing, f, d).Some? then (s, Failure(LimitError(existing, f, d).value))
      else if !bucketUp then (s, Failure(StorageFailed))
      else
        var row := NewRow(s, step, f, d, contentId);
        if FindRow(existing, contentId).Some? then (s.(nextKey := s.nextKey + 1), Failure(Conflict))
        else (s.(rows := s.rows + [row], objects := s.objects + {row.key}, nextKey := s.nextKey + 1),
          Success((row, true)))
  }

  predicate Referenced(rows: seq<Row>, key: int) { exists r | r in rows :: r.key == key }

  /** The object goes with its last row, if the bucket takes the call. */
  function Delete(s: Store, step: int, contentId: int, bucketUp: bool): (Store, Result<(), Error>) {
    if StepError(s, step).Some? then (s, Failure(StepError(s, step).value))
    else
      var row := FindRow(OfStep(s.rows, step), contentId);
      if row.None? then (s, Failure(NotFound))
      else
        var rows := Without(s.rows, step, contentId);
        (s.(rows := rows,
            objects := if Referenced(rows, row.value.key) || !bucketUp then s.objects else s.objects - {row.value.key}),
         Success(()))
  }

  /** Duplicating a step or a campaign copies the rows into a step just made; objects are shared. */
  function CopyStep(s: Store, from: int, to: int): Store {
    if from !in s.steps || to in s.steps then s
    else s.(steps := s.steps[to := StepInfo(s.steps[from].email, true)],
            rows := s.rows + Moved(OfStep(s.rows, from), to))
  }

  function AddStep(s: Store, step: int, email: bool): Store {
    if step in s.steps then s else s.(steps := s.steps[step := StepInfo(email, true)])
  }

  /** Deleting a draft step cascades to its rows; their objects stay behind. */
  function DeleteStep(s: Store, step: int): Store {
    if step !in s.steps || !s.steps[step].draft then s
    else s.(steps := s.steps - {step}, rows := WithoutStep(s.rows, step))
  }

  function Freeze(s: Store, step: int): Store {
    if step !in s.steps then s else s.(steps := s.steps[step := s.steps[step].(draft := false)])
  }

  // ---- Histories --------------------------------------------------------------------------------------

  datatype Event =
    | DoUpload(step: int, file: File, disposition: Disposition, contentId: int, bucketUp: bool)
    | DoDelete(step: int, contentId: int, bucketUp: bool)
    | DoCopyStep(from: int, to: int)
    | DoAddStep(step: int, email: bool)
    | DoDeleteStep(step: int)
    | DoFreeze(step: int)

  function Step(s: Store, e: Event): Store {
    match e
    case DoUpload(step, f, d, contentId, up) => Upload(s, step, f, d, contentId, up).0
    case DoDelete(step, contentId, up) => Delete(s, step, contentId, up).0
    case DoCopyStep(from, to) => CopyStep(s, from, to)
    case DoAddStep(step, email) => AddStep(s, step, email)
    case DoDeleteStep(step) => DeleteStep(s, step)
    case DoFreeze(step) => Freeze(s, step)
  }

  const EMPTY := Store(map[], [], {}, 0)

  function Run(events: seq<Event>): Store {
    if events == [] then EMPTY else Step(Run(events[..|events| - 1]), events[|events| - 1])
  }

  // ---- What every step keeps ------------------------------------------------------------------------------

  ghost predicate WithinLimits(rows: seq<Row>) {
    Count(rows, Attachment) <= MAX_ATTACHMENTS && Count(rows, Inline) <= MAX_INLINE_IMAGES
      && Total(rows) <= MAX_TOTAL_BYTES
  }

  ghost predicate NoClash(rows: seq<Row>) {
    forall i, j | 0 <= i < j < |rows| :: !Clashes(rows[i], rows[j])
  }

  ghost predicate Sound(s: Store) {
    && (forall step :: WithinLimits(OfStep(s.rows, step)))
    && NoClash(s.rows)
    && (forall r | r in s.rows :: r.key in s.objects && r.key < s.nextKey && r.step in s.steps)
    && (forall k | k in s.objects :: k < s.nextKey)
  }

  lemma {:induction false} OfStepFacts(rows: seq<Row>, step: int)
    ensures forall r :: r in OfStep(rows, step) <==> r in rows && r.step == step
  {
    if rows != [] {
      assert rows == rows[..|rows| - 1] + [rows[|rows| - 1]];
      OfStepFacts(rows[..|rows| - 1], step);
    }
  }

  lemma {:induction false} OfStepSum(a: seq<Row>, b: seq<Row>, step: int)
    ensures OfStep(a + b, step) == OfStep(a, step) + OfStep(b, step)
  {
    if b == [] {
      assert a + b == a;
    } else {
      assert (a + b)[..|a + b| - 1] == a + b[..|b| - 1];
      OfStepSum(a, b[..|b| - 1], step);
    }
  }

  lemma OfStepOne(r: Row, step: int)
    ensures OfStep([r], step) == if r.step == step then [r] else []
  {
    assert [r][..0] == [];
  }

  /** No rows count and weigh nothing; one more raises one count by one and the total by its size. */
  lemma OneMoreRow(rows: seq<Row>, r: Row)
    ensures Total([]) == 0 && forall d :: Count([], d) == 0
    ensures Total(rows + [r]) == Total(rows) + r.size
    ensures forall d :: Count(rows + [r], d) == Count(rows, d) + if r.disposition == d then 1 else 0
  {
    assert (rows + [r])[..|rows|] == rows;
  }

  lemma {:induction false} WithoutFacts(rows: seq<Row>, step: int, contentId: int)
    ensures forall r ::
              r in Without(rows, step, contentId) <==> r in rows && !(r.step == step && r.contentId == contentId)
    ensures NoClash(rows) ==> NoClash(Without(rows, step, contentId))
  {
    if rows != [] {
      var init := rows[..|rows| - 1];
      assert rows == init + [rows[|rows| - 1]];
      WithoutFacts(init, step, contentId);
      if NoClash(rows) { OneMoreNoClash(init, Without(init, step, contentId), rows[|rows| - 1]); }
    }
  }

  /** A row that fits at the end of a list fits at the end of a part of it. */
  lemma OneMoreNoClash(all: seq<Row>, part: seq<Row>, r: Row)
    requires NoClash(all + [r]) && (forall x | x in part :: x in all) && (NoClash(all) ==> NoClash(part))
    ensures NoClash(all) && NoClash(part + [r])
  {
    var more := all + [r];
    forall i, j | 0 <= i < j < |all| ensures !Clashes(all[i], all[j]) {
      assert more[i] == all[i] && more[j] == all[j];
    }
    forall i, j | 0 <= i < j < |part + [r]| ensures !Clashes((part + [r])[i], (part + [r])[j]) {
      if j == |part| {
        assert part[i] in part;
        var k :| 0 <= k < |all| && all[k] == part[i];
        assert !Clashes(more[k], more[|all|]);
      } else {
        assert !Clashes(part[i], part[j]);
      }
    }
  }

  /** Removing rows never takes a step over a limit. */
  lemma {:induction false} WithoutShrinks(rows: seq<Row>, step: int, contentId: int, at: int)
    ensures var was, now := OfStep(rows, at), OfStep(Without(rows, step, contentId), at);
            Total(now) <= Total(was) && forall d :: Count(now, d) <= Count(was, d)
  {
    if rows != [] {
      var init, last := rows[..|rows| - 1], rows[|rows| - 1];
      WithoutShrinks(init, step, contentId, at);
      assert rows == init + [last];
      var kept := Without(init, step, contentId);
      assert Without(rows, step, contentId)
        == if last.step == step && last.contentId == contentId then kept else kept + [last];
      hide Without, Count, Total;
      OneMoreOfStep(init, last, at);
      OneMoreOfStep(kept, last, at);
    }
  }

  lemma OneMoreOfStep(rows: seq<Row>, r: Row, at: int)
    ensures OfStep(rows + [r], at) == if r.step == at then OfStep(rows, at) + [r] else OfStep(rows, at)
    ensures var was, now := OfStep(rows, at), OfStep(rows + [r], at);
            && Total(now) == Total(was) + (if r.step == at then r.size else 0)
            && forall d :: Count(now, d) == Count(was, d) + if r.step == at && r.disposition == d then 1 else 0
  {
    hide Count, Total;
    OfStepSum(rows, [r], at);
    OfStepOne(r, at);
    if r.step == at { OneMoreRow(OfStep(rows, at), r); } else { assert OfStep(rows, at) + [] == OfStep(rows, at); }
  }

  lemma {:induction false} WithoutStepRows(rows: seq<Row>, step: int)
    ensures forall r :: r in WithoutStep(rows, step) <==> r in rows && r.step != step
    ensures NoClash(rows) ==> NoClash(WithoutStep(rows, step))
  {
    if rows != [] {
      var init, last := rows[..|rows| - 1], rows[|rows| - 1];
      assert rows == init + [last];
      WithoutStepRows(init, step);
      hide NoClash;
      if NoClash(rows) { OneMoreNoClash(init, WithoutStep(init, step), last); }
    }
  }

  lemma {:induction false} WithoutStepOthers(rows: seq<Row>, step: int, at: int)
    ensures OfStep(WithoutStep(rows, step), at) == if at == step then [] else OfStep(rows, at)
  {
    if rows != [] {
      var init, last := rows[..|rows| - 1], rows[|rows| - 1];
      WithoutStepOthers(init, step, at);
      assert rows == init + [last];
      var kept := WithoutStep(init, step);
      assert WithoutStep(rows, step) == if last.step == step then kept else kept + [last];
      OneMoreOfStep(init, last, at);
      OneMoreOfStep(kept, last, at);
    }
  }

  /** A copy weighs what the original weighs. */
  lemma {:induction false} MovedSame(rows: seq<Row>, step: int)
    ensures Total(Moved(rows, step)) == Total(rows) && forall d :: Count(Moved(rows, step), d) == Count(rows, d)
    ensures OfStep(Moved(rows, step), step) == Moved(rows, step)
    ensures forall at | at != step :: OfStep(Moved(rows, step), at) == []
  {
    if rows != [] {
      var init := rows[..|rows| - 1];
      MovedSame(init, step);
      assert Moved(rows, step)[..|rows| - 1] == Moved(init, step);
    }
  }

  lemma {:induction false} OfStepNoClash(rows: seq<Row>, step: int)
    requires NoClash(rows)
    ensures NoClash(OfStep(rows, step))
  {
    if rows != [] {
      var init, last := rows[..|rows| - 1], rows[|rows| - 1];
      assert rows == init + [last];
      OfStepFacts(init, step);
      assert NoClash(init) by { OneMoreNoClash(init, [], last); }
      OfStepNoClash(init, step);
      OneMoreNoClash(init, OfStep(init, step), last);
    }
  }

  lemma UploadKeepsSound(s: Store, step: int, f: File, d: Disposition, contentId: int, up: bool)
    requires Sound(s)
    ensures Sound(Upload(s, step, f, d, contentId, up).0)
  {
    hide OfStep, Count, Total;
    var s' := Upload(s, step, f, d, contentId, up).0;
    var existing := OfStep(s.rows, step);
    OfStepFacts(s.rows, step);
    if s'.rows != s.rows {
      var row := NewRow(s, step, f, d, contentId);
      assert s'.rows == s.rows + [row];
      forall at ensures WithinLimits(OfStep(s'.rows, at)) {
        OneMoreOfStep(s.rows, row, at);
        assert WithinLimits(OfStep(s.rows, at));
      }
      forall i | 0 <= i < |s.rows| ensures !Clashes(s.rows[i], row) {
        assert s.rows[i] in s.rows;
        if s.rows[i].step == step { assert s.rows[i] in existing; }
      }
    }
  }

  lemma DeleteKeepsSound(s: Store, step: int, contentId: int, up: bool)
    requires Sound(s)
    ensures Sound(Delete(s, step, contentId, up).0)
  {
    hide OfStep, Count, Total, Without;
    var s' := Delete(s, step, contentId, up).0;
    if s' != s {
      WithoutFacts(s.rows, step, contentId);
      forall at ensures WithinLimits(OfStep(s'.rows, at)) {
        WithoutShrinks(s.rows, step, contentId, at);
        assert WithinLimits(OfStep(s.rows, at));
      }
    }
  }

  lemma CopyKeepsSound(s: Store, from: int, to: int)
    requires Sound(s)
    ensures Sound(CopyStep(s, from, to))
  {
    hide OfStep, Count, Total, Moved;
    if from in s.steps && to !in s.steps {
      var source := OfStep(s.rows, from);
      var copies := Moved(source, to);
      var s' := CopyStep(s, from, to);
      OfStepFacts(s.rows, from);
      NoRowsOfStep(s.rows, to);
      OfStepNoClash(s.rows, from);
      MovedSame(source, to);
      MovedFacts(source, to);
      assert WithinLimits(source);
      forall at ensures WithinLimits(OfStep(s'.rows, at)) {
        OfStepSum(s.rows, copies, at);
        assert WithinLimits(OfStep(s.rows, at));
        assert OfStep(s.rows, at) + [] == OfStep(s.rows, at) && [] + copies == copies;
      }
      forall i, j | 0 <= i < j < |s'.rows| ensures !Clashes(s'.rows[i], s'.rows[j]) {
        if i < |s.rows| { assert s.rows[i] in s.rows; }
      }
    }
  }

  lemma {:induction false} NoRowsOfStep(rows: seq<Row>, step: int)
    requires forall r | r in rows :: r.step != step
    ensures OfStep(rows, step) == []
  {
    if rows != [] { NoRowsOfStep(rows[..|rows| - 1], step); }
  }

  lemma MovedFacts(rows: seq<Row>, step: int)
    requires forall i, j | 0 <= i < j < |rows| :: rows[i].step == rows[j].step
    ensures |Moved(rows, step)| == |rows|
    ensures forall r | r in Moved(rows, step) :: r.step == step && exists o | o in rows :: o.key == r.key
    ensures NoClash(rows) ==> NoClash(Moved(rows, step))
  {
    var copies := Moved(rows, step);
    forall r | r in copies ensures exists o | o in rows :: o.key == r.key {
      var i :| 0 <= i < |copies| && copies[i] == r;
      assert rows[i] in rows;
    }
    if NoClash(rows) {
      forall i, j | 0 <= i < j < |copies| ensures !Clashes(copies[i], copies[j]) {
        assert !Clashes(rows[i], rows[j]);
      }
    }
  }

  lemma StepKeepsSound(s: Store, e: Event)
    requires Sound(s)
    ensures Sound(Step(s, e))
  {
    hide OfStep, Upload, Delete, CopyStep, WithoutStep, WithinLimits;
    match e {
      case DoUpload(step, f, d, contentId, up) => UploadKeepsSound(s, step, f, d, contentId, up);
      case DoDelete(step, contentId, up) => DeleteKeepsSound(s, step, contentId, up);
      case DoCopyStep(from, to) => CopyKeepsSound(s, from, to);
      case DoDeleteStep(step) =>
        WithoutStepRows(s.rows, step);
        forall at ensures OfStep(WithoutStep(s.rows, step), at) == if at == step then [] else OfStep(s.rows, at) {
          WithoutStepOthers(s.rows, step, at);
        }
        NoRowsWithin();
      case _ =>
    }
  }

  lemma NoRowsWithin()
    ensures WithinLimits([])
  {
  }

  lemma {:induction false} RunKeepsSound(events: seq<Event>)
    ensures Sound(Run(events))
  {
    if events == [] {
      assert forall step :: OfStep([], step) == [];
    } else {
      RunKeepsSound(events[..|events| - 1]);
      StepKeepsSound(Run(events[..|events| - 1]), events[|events| - 1]);
    }
  }

  lemma RunOneMore(events: seq<Event>, e: Event)
    ensures Run(events + [e]) == Step(Run(events), e)
  {
    assert (events + [e])[..|events|] == events;
  }

  // ---- Main results -----------------------------------------------------------------------------------------

  /**
   After any history of uploads, deletes, copies, step deletions and activations: every step is within its
   three limits, holds no file twice in one role, and every row's object is still in the bucket.
   */
  lemma StepsStayWithinLimits(events: seq<Event>, step: int)
    ensures var rows := OfStep(Run(events).rows, step);
            && Count(rows, Attachment) <= MAX_ATTACHMENTS && Count(rows, Inline) <= MAX_INLINE_IMAGES
            && Total(rows) <= MAX_TOTAL_BYTES
            && (forall i, j | 0 <= i < j < |rows| :: rows[i].contentId != rows[j].contentId
                  && !(rows[i].sha == rows[j].sha && rows[i].disposition == rows[j].disposition))
            && forall r | r in rows :: r.key in Run(events).objects
  {
    hide Run, OfStep, Count, Total;
    RunKeepsSound(events);
    var s := Run(events);
    OfStepFacts(s.rows, step);
    OfStepNoClash(s.rows, step);
    assert WithinLimits(OfStep(s.rows, step));
    var rows := OfStep(s.rows, step);
    forall i, j | 0 <= i < j < |rows| ensures rows[i].contentId != rows[j].contentId
      && !(rows[i].sha == rows[j].sha && rows[i].disposition == rows[j].disposition)
    {
      assert rows[i] in rows && rows[j] in rows;
      assert !Clashes(rows[i], rows[j]);
    }
  }

  /** A delete takes away exactly one row, and its object exactly when no copy still needs it and the bucket answers. */
  lemma DeleteIsExact(events: seq<Event>, step: int, contentId: int, up: bool)
    requires Delete(Run(events), step, contentId, up).1.Success?
    ensures var s := Run(events);
            var s' := Delete(s, step, contentId, up).0;
            exists r :: r in s.rows && r.step == step && r.contentId == contentId
              && (forall x :: x in s'.rows <==> x in s.rows && x != r)
              && s'.objects
                 == if up && forall x | x in s.rows && x != r :: x.key != r.key then s.objects - {r.key} else s.objects
  {
    hide Run, OfStep, Without;
    RunKeepsSound(events);
    var s := Run(events);
    OfStepFacts(s.rows, step);
    WithoutFacts(s.rows, step, contentId);
    var r := FindRow(OfStep(s.rows, step), contentId).value;
    forall x | x in s.rows && x.step == step && x.contentId == contentId ensures x == r {
      OnlyRow(s.rows, x, r);
    }
  }

  lemma OnlyRow(rows: seq<Row>, a: Row, b: Row)
    requires NoClash(rows) && a in rows && b in rows && Clashes(a, b)
    ensures a == b
  {
    var i :| 0 <= i < |rows| && rows[i] == a;
    var j :| 0 <= j < |rows| && rows[j] == b;
  }

  /** Sending the same file again answers with the row already there and changes nothing. */
  lemma UploadTwice(events: seq<Event>, step: int, f: File, d: Disposition, contentId: int, contentId': int,
        up: bool, up': bool)
    requires Upload(Run(events), step, f, d, contentId, up).1.Success?
    ensures var first := Upload(Run(events), step, f, d, contentId, up);
            Upload(first.0, step, f, d, contentId', up') == (first.0, Success((first.1.value.0, false)))
  {
    hide Run, OfStep, LimitError;
    RunKeepsSound(events);
    var s := Run(events);
    var first := Upload(s, step, f, d, contentId, up);
    OfStepFacts(s.rows, step);
    OfStepFacts(first.0.rows, step);
    var found := FindFile(OfStep(first.0.rows, step), f.sha, d);
    if first.1.value.1 {
      assert first.0.rows == s.rows + [first.1.value.0];
      assert first.1.value.0 in first.0.rows;
      assert found.Some?;
    }
  }

  /** An Email step of a draft campaign. */
  predicate DraftEmail(s: Store, step: int) { step in s.steps && s.steps[step].email && s.steps[step].draft }

  predicate HasFile(s: Store, step: int, sha: int, d: Disposition) {
    exists x | x in s.rows :: x.step == step && x.sha == sha && x.disposition == d
  }

  predicate HasContentId(s: Store, step: int, contentId: int) {
    exists x | x in s.rows :: x.step == step && x.contentId == contentId
  }

  /** There is a place in this role and room for the bytes. */
  predicate HasPlace(rows: seq<Row>, d: Disposition, size: nat) {
    && (if d.Attachment? then Count(rows, Attachment) < 5 else Count(rows, Inline) < 10)
    && Total(rows) + size <= 2_621_440
  }

  /**
   Exactly what an upload does, after any history. A draft Email step and a valid file are needed. A file the step
   holds in this role answers with its row; otherwise, with a place, the bucket up and a new content id, one row
   with a new object is added at the end. Every other call is refused, and no refusal changes rows or objects.
   */
  lemma UploadIff(events: seq<Event>, step: int, f: File, d: Disposition, contentId: int, up: bool)
    ensures var s := Run(events);
            var (s', r) := Upload(s, step, f, d, contentId, up);
            var accepted := DraftEmail(s, step) && 1 <= f.size <= 2_621_440 && f.allowed;
            var held, place := HasFile(s, step, f.sha, d), HasPlace(OfStep(s.rows, step), d, f.size);
            && (r.Success? && !r.value.1 <==> accepted && held)
            && (r.Success? && !r.value.1 ==>
                  s' == s && r.value.0 in s.rows && r.value.0.step == step
                  && r.value.0.sha == f.sha && r.value.0.disposition == d)
            && (r.Success? && r.value.1 <==> accepted && !held && place && up && !HasContentId(s, step, contentId))
            && (r.Success? && r.value.1 ==>
                  && s'.rows == s.rows + [r.value.0] && s'.steps == s.steps
                  && r.value.0.key !in s.objects && s'.objects == s.objects + {r.value.0.key}
                  && r.value.0 == Row(step, d, contentId, r.value.0.key, f.size, f.sha))
            && (r.Failure? ==> s'.rows == s.rows && s'.objects == s.objects && s'.steps == s.steps)
            && Run(events + [DoUpload(step, f, d, contentId, up)]) == s'
  {
    hide Run, OfStep, Count, Total;
    RunOneMore(events, DoUpload(step, f, d, contentId, up));
    RunKeepsSound(events);
    OfStepFacts(Run(events).rows, step);
  }

  /** An upload that is refused names the first check that fails. */
  lemma UploadRefusals(events: seq<Event>, step: int, f: File, d: Disposition, contentId: int, up: bool)
    ensures var s := Run(events);
            var r, rows := Upload(s, step, f, d, contentId, up).1, OfStep(s.rows, step);
            var valid := 1 <= f.size <= 2_621_440 && f.allowed;
            var full := if d.Attachment? then Count(rows, Attachment) >= 5 else Count(rows, Inline) >= 10;
            r.Failure? ==>
              && (r.error == NotFound <==> step !in s.steps)
              && (r.error == NotAnEmail <==> step in s.steps && !s.steps[step].email)
              && (r.error == NotDraft <==> step in s.steps && s.steps[step].email && !s.steps[step].draft)
              && (r.error == InvalidFile <==> DraftEmail(s, step) && !valid)
              && (r.error == TooMany <==> DraftEmail(s, step) && valid && full)
              && (r.error == TooLarge <==> DraftEmail(s, step) && valid && !full && Total(rows) + f.size > 2_621_440)
              && (r.error == StorageFailed <==> DraftEmail(s, step) && valid && HasPlace(rows, d, f.size) && !up)
  {
    hide Run, OfStep, Count, Total;
  }

  /** A delete succeeds exactly on a draft Email step that has the row. */
  lemma DeleteIff(events: seq<Event>, step: int, contentId: int, up: bool)
    ensures var s := Run(events);
            var (s', r) := Delete(s, step, contentId, up);
            && (r.Success? <==> DraftEmail(s, step) && HasContentId(s, step, contentId))
            && s'.steps == s.steps && (r.Failure? ==> s' == s)
            && Run(events + [DoDelete(step, contentId, up)]) == s'
  {
    hide Run, OfStep, Without;
    RunOneMore(events, DoDelete(step, contentId, up));
    OfStepFacts(Run(events).rows, step);
  }

  /** A copied step is a draft of the same kind with the original's rows, and shares its objects. */
  lemma CopyIsExact(events: seq<Event>, from: int, to: int)
    requires from in Run(events).steps && to !in Run(events).steps
    ensures var s, s' := Run(events), Run(events + [DoCopyStep(from, to)]);
            && s'.steps == s.steps[to := StepInfo(s.steps[from].email, true)] && s'.objects == s.objects
            && OfStep(s'.rows, to) == Moved(OfStep(s.rows, from), to)
            && forall at | at != to :: OfStep(s'.rows, at) == OfStep(s.rows, at)
  {
    hide OfStep, Moved, Run;
    RunOneMore(events, DoCopyStep(from, to));
    RunKeepsSound(events);
    var s := Run(events);
    var copies := Moved(OfStep(s.rows, from), to);
    MovedSame(OfStep(s.rows, from), to);
    NoRowsOfStep(s.rows, to);
    forall at ensures OfStep(s.rows + copies, at) == if at == to then copies else OfStep(s.rows, at) {
      OfStepSum(s.rows, copies, at);
      assert OfStep(s.rows, at) + [] == OfStep(s.rows, at) && [] + copies == copies;
    }
  }

  /** Deleting a draft step takes its rows and leaves the objects; a step outside DRAFT is not deleted. */
  lemma DeleteStepIsExact(events: seq<Event>, step: int)
    ensures var s, s' := Run(events), Run(events + [DoDeleteStep(step)]);
            if step in s.steps && s.steps[step].draft then
              step !in s'.steps && OfStep(s'.rows, step) == [] && s'.objects == s.objects
            else s' == s
  {
    hide OfStep, Run;
    RunOneMore(events, DoDeleteStep(step));
    WithoutStepOthers(Run(events).rows, step, step);
  }

  /** New steps are drafts without rows; freezing takes a step out of DRAFT and touches nothing else. */
  lemma AddAndFreeze(events: seq<Event>, step: int, email: bool)
    ensures var s, s' := Run(events), Run(events + [DoAddStep(step, email)]);
            && s'.rows == s.rows && s'.objects == s.objects
            && s'.steps == if step in s.steps then s.steps else s.steps[step := StepInfo(email, true)]
    ensures step !in Run(events).steps ==> OfStep(Run(events + [DoAddStep(step, email)]).rows, step) == []
    ensures var s, s' := Run(events), Run(events + [DoFreeze(step)]);
            && s'.rows == s.rows && s'.objects == s.objects
            && s'.steps == if step in s.steps then s.steps[step := StepInfo(s.steps[step].email, false)] else s.steps
  {
    hide Run;
    RunOneMore(events, DoAddStep(step, email));
    RunOneMore(events, DoFreeze(step));
    RunKeepsSound(events);
    if step !in Run(events).steps { NoRowsOfStep(Run(events).rows, step); }
  }

  /** The step the event is about. */
  function Target(e: Event): int {
    match e case DoCopyStep(_, to) => to case _ => e.step
  }

  lemma {:induction false} WithoutOthers(rows: seq<Row>, step: int, contentId: int, at: int)
    requires at != step
    ensures OfStep(Without(rows, step, contentId), at) == OfStep(rows, at)
  {
    if rows != [] {
      var init, last := rows[..|rows| - 1], rows[|rows| - 1];
      WithoutOthers(init, step, contentId, at);
      assert rows == init + [last];
      var kept := Without(init, step, contentId);
      assert Without(rows, step, contentId)
        == if last.step == step && last.contentId == contentId then kept else kept + [last];
      hide Without;
      OneMoreOfStep(kept, last, at);
      OneMoreOfStep(init, last, at);
    }
  }

  predicate Frozen(s: Store, step: int) { step in s.steps && !s.steps[step].draft }

  /** An event changes no rows of another step, nor of a step outside DRAFT, and does not bring one back to DRAFT. */
  lemma StepIsLocal(s: Store, e: Event, at: int)
    requires Sound(s) && (Target(e) != at || Frozen(s, at))
    ensures OfStep(Step(s, e).rows, at) == OfStep(s.rows, at)
    ensures Frozen(s, at) ==> Frozen(Step(s, e), at)
  {
    hide OfStep, Without, WithoutStep, Moved;
    match e {
      case DoUpload(step, f, d, contentId, up) =>
        if Step(s, e).rows != s.rows { OneMoreOfStep(s.rows, NewRow(s, step, f, d, contentId), at); }
      case DoDelete(step, contentId, up) =>
        if step != at { WithoutOthers(s.rows, step, contentId, at); }
      case DoCopyStep(from, to) =>
        var copies := Moved(OfStep(s.rows, from), to);
        if to != at {
          OfStepSum(s.rows, copies, at);
          MovedSame(OfStep(s.rows, from), to);
          assert OfStep(s.rows, at) + [] == OfStep(s.rows, at);
        }
      case DoDeleteStep(step) => WithoutStepOthers(s.rows, step, at);
      case _ =>
    }
  }

  /** Once a step is outside DRAFT, no later event ever changes its rows, and it stays so. */
  lemma {:induction false} FrozenStepKeepsRows(events: seq<Event>, more: seq<Event>, step: int)
    requires Frozen(Run(events), step)
    ensures Frozen(Run(events + more), step)
    ensures OfStep(Run(events + more).rows, step) == OfStep(Run(events).rows, step)
    decreases |more|
  {
    hide OfStep, Step, Sound, Frozen;
    if more == [] {
      assert events + more == events;
    } else {
      var n := |more| - 1;
      assert (events + more)[..|events + more| - 1] == events + more[..n]
          && (events + more)[|events + more| - 1] == more[n];
      FrozenStepKeepsRows(events, more[..n], step);
      RunKeepsSound(events + more[..n]);
      StepIsLocal(Run(events + more[..n]), more[n], step);
    }
  }

  // ---- Two uploads at once -----------------------------------------------------------------------------------

  /**
   The limits are checked before the insert, against what the step holds then. When two different files are
   checked against the same rows and both inserted, the step stays within its limits exactly when there is
   room for both: two places if they share a role, and the bytes of both.
   */
  lemma ConcurrentUploadsKeepLimitsIff(rows: seq<Row>, a: Row, b: Row)
    requires WithinLimits(rows)
    requires LimitError(rows, File(a.size, a.sha, true), a.disposition).None?
    requires LimitError(rows, File(b.size, b.sha, true), b.disposition).None?
    ensures WithinLimits(rows + [a] + [b]) <==>
              && (a.disposition == b.disposition ==> Count(rows, a.disposition) + 2 <= Limit(a.disposition))
              && Total(rows) + a.size + b.size <= MAX_TOTAL_BYTES
  {
    hide Count, Total;
    OneMoreRow(rows, a);
    OneMoreRow(rows + [a], b);
  }

  /** A sixth attachment: four are there, and two uploads pass the check together. */
  lemma ConcurrentUploadsExceedLimit()
    ensures var four := seq(4, i requires 0 <= i < 4 => Row(1, Attachment, i, i, 10, i));
            var a, b := Row(1, Attachment, 4, 4, 10, 4), Row(1, Attachment, 5, 5, 10, 5);
            && LimitError(four, File(10, 4, true), Attachment).None?
            && LimitError(four, File(10, 5, true), Attachment).None?
            && Count(four + [a] + [b], Attachment) == 6
  {
    var r := seq(4, i requires 0 <= i < 4 => Row(1, Attachment, i, i, 10, i));
    assert r == [] + [r[0]] + [r[1]] + [r[2]] + [r[3]];
    OneMoreRow([], r[0]);
    OneMoreRow([] + [r[0]], r[1]);
    OneMoreRow([] + [r[0]] + [r[1]], r[2]);
    OneMoreRow([] + [r[0]] + [r[1]] + [r[2]], r[3]);
    OneMoreRow(r, Row(1, Attachment, 4, 4, 10, 4));
    OneMoreRow(r + [Row(1, Attachment, 4, 4, 10, 4)], Row(1, Attachment, 5, 5, 10, 5));
  }

  // ---- The service ---------------------------------------------------------------------------------------------

  class StepAttachmentService {
    var steps: map<int, StepInfo>
    var rows: seq<Row>
    var objects: set<int>
    var nextKey: int

    function Snapshot(): Store
      reads this
    {
      Store(steps, rows, objects, nextKey)
    }

    constructor (s: Store)
      ensures Snapshot() == s
    {
      steps, rows, objects, nextKey := s.steps, s.rows, s.objects, s.nextKey;
    }

    method ListStep(step: int) returns (r: seq<Row>)
      ensures r == OfStep(rows, step)
    {
      r := [];
      for i := 0 to |rows|
        invariant r == OfStep(rows[..i], step)
      {
        assert rows[..i + 1][..i] == rows[..i];
        if rows[i].step == step { r := r + [rows[i]]; }
      }
      assert rows[..|rows|] == rows;
    }

    static method Tally(existing: seq<Row>) returns (attachments: nat, inlines: nat, total: nat)
      ensures attachments == Count(existing, Attachment) && inlines == Count(existing, Inline)
              && total == Total(existing)
    {
      attachments, inlines, total := 0, 0, 0;
      for i := 0 to |existing|
        invariant attachments == Count(existing[..i], Attachment) && inlines == Count(existing[..i], Inline)
        invariant total == Total(existing[..i])
      {
        assert existing[..i + 1] == existing[..i] + [existing[i]];
        OneMoreRow(existing[..i], existing[i]);
        if existing[i].disposition.Attachment? { attachments := attachments + 1; } else { inlines := inlines + 1; }
        total := total + existing[i].size;
      }
      assert existing[..|existing|] == existing;
    }

    method UploadFile(step: int, f: File, d: Disposition, contentId: int, bucketUp: bool) returns (r: Result<(Row,
          bool), Error>)
      modifies this
      ensures (Snapshot(), r) == Upload(old(Snapshot()), step, f, d, contentId, bucketUp)
    {
      hide OfStep, Count, Total;
      var e := StepError(Snapshot(), step);
      if e.Some? { return Failure(e.value); }
      if !Valid(f) { return Failure(InvalidFile); }
      var existing := ListStep(step);
      var duplicate := FindFile(existing, f.sha, d);
      if duplicate.Some? { return Success((duplicate.value, false)); }
      var attachments, inlines, total := Tally(existing);
      if d.Attachment? && attachments >= MAX_ATTACHMENTS { return Failure(TooMany); }
      if d.Inline? && inlines >= MAX_INLINE_IMAGES { return Failure(TooMany); }
      if total + f.size > MAX_TOTAL_BYTES { return Failure(TooLarge); }
      if !bucketUp { return Failure(StorageFailed); }
      var row := Row(step, d, contentId, nextKey, f.size, f.sha);
      nextKey := nextKey + 1;
      if FindRow(existing, contentId).Some? { return Failure(Conflict); }  // the object just uploaded is dropped again
      objects := objects + {row.key};
      rows := rows + [row];
      return Success((row, true));
    }

    method RemoveRow(step: int, contentId: int)
      modifies this`rows
      ensures rows == Without(old(rows), step, contentId)
    {
      var kept: seq<Row> := [];
      for i := 0 to |rows|
        invariant rows == old(rows) && kept == Without(rows[..i], step, contentId)
      {
        assert rows[..i + 1][..i] == rows[..i];
        if !(rows[i].step == step && rows[i].contentId == contentId) { kept := kept + [rows[i]]; }
      }
      assert rows[..|rows|] == rows;
      rows := kept;
    }

    method DeleteFile(step: int, contentId: int, bucketUp: bool) returns (r: Result<(), Error>)
      modifies this
      ensures (Snapshot(), r) == Delete(old(Snapshot()), step, contentId, bucketUp)
    {
      hide OfStep, Without;
      var e := StepError(Snapshot(), step);
      if e.Some? { return Failure(e.value); }
      var existing := ListStep(step);
      var row := FindRow(existing, contentId);
      if row.None? { return Failure(NotFound); }
      RemoveRow(step, contentId);
      var remaining := 0;
      for i := 0 to |rows|
        invariant remaining == 0 <==> !Referenced(rows[..i], row.value.key)
        invariant 0 <= remaining && Snapshot() == old(Snapshot()).(rows := Without(old(rows), step, contentId))
      {
        assert rows[..i + 1] == rows[..i] + [rows[i]];
        if rows[i].key == row.value.key { remaining := remaining + 1; }
      }
      assert rows[..|rows|] == rows;
      if remaining == 0 && bucketUp { objects := objects - {row.value.key}; }
      return Success(());
    }
  }
}
