/**
 Adding leads to a list with a pool of workers over one queue (frontend/lib/bulk-add-to-list.ts,
 `addLeadsToListWithProgress`). JavaScript runs one segment at a time: a worker's first segment, and one
 after each answer, in any order.
 */
module AddPool {
  import opened Wrappers

  type LeadId = string

  datatype Worker = NotStarted | Calling(k: nat) | Stopped

  datatype Progress = Progress(processed: nat, total: nat, failed: nat)

  /**
   `shifted` ids are off the queue. `owner` is history: the worker that took each of them, by place in the
   list; `reports` are the progress callbacks.
   */
  datatype Pool = Pool(ids: seq<LeadId>, shifted: nat, workers: seq<Worker>, processed: nat, succeeded: nat,
                       failed: nat, owner: seq<nat>, reports: seq<Progress>)

  datatype Event = Begin(worker: nat) | Answer(worker: nat, ok: bool)

  function Min(a: int, b: int): int { if b < a then b else a }
  function Max(a: int, b: int): int { if a < b then b else a }

  /** How many workers: the wish, or 5, but no more than ids and at least one. */
  function Concurrency(wish: Option<int>, count: nat): (n: nat)
    ensures n >= 1 && (n == 1 || n <= count)
    ensures wish.Some? && 1 <= wish.value <= count ==> n == wish.value
    ensures wish.Some? && wish.value > count >= 1 ==> n == count
    ensures wish.Some? && (wish.value < 1 || count == 0) ==> n == 1
    ensures wish.None? ==> n == if count >= 5 then 5 else if count >= 1 then count else 1
  {
    Max(1, Min(if wish.Some? then wish.value else 5, if count == 0 then 1 else count))
  }

  function Open(ids: seq<LeadId>, wish: Option<int>): Pool {
    Pool(ids, 0, seq(Concurrency(wish, |ids|), _ => NotStarted), 0, 0, 0, [], [])
  }

  /** The loop head: takes the next id off the queue; an empty id is falsy and ends the worker like no id. */
  function Shift(p: Pool, w: nat): Pool
    requires w < |p.workers|
  {
    if p.shifted >= |p.ids| then p.(workers := p.workers[w := Stopped])
    else if p.ids[p.shifted] == "" then
      p.(workers := p.workers[w := Stopped], shifted := p.shifted + 1, owner := p.owner + [w])
    else p.(workers := p.workers[w := Calling(p.shifted)], shifted := p.shifted + 1, owner := p.owner + [w])
  }

  function Count(p: Pool, ok: bool): Pool {
    var failed := if ok then p.failed else p.failed + 1;
    p.(succeeded := if ok then p.succeeded + 1 else p.succeeded, failed := failed, processed := p.processed + 1,
       reports := p.reports + [Progress(p.processed + 1, |p.ids|, failed)])
  }

  predicate Possible(p: Pool, e: Event) {
    e.worker < |p.workers| &&
    match e
    case Begin(w) => p.workers[w].NotStarted?
    case Answer(w, _) => p.workers[w].Calling?
  }

  function Step(p: Pool, e: Event): Pool
    requires Possible(p, e)
  {
    match e case Begin(w) => Shift(p, w) case Answer(w, ok) => Shift(Count(p, ok), w)
  }

  /** A run: events that are not possible are ignored. */
  function Run(p: Pool, events: seq<Event>): Pool {
    if events == [] then p
    else
      var before, e := Run(p, events[..|events| - 1]), events[|events| - 1];
      if Possible(before, e) then Step(before, e) else before
  }

  predicate Finished(p: Pool) { forall w | 0 <= w < |p.workers| :: p.workers[w].Stopped? }

  // ---- Counting -----------------------------------------------------------------------------------

  function Busy(workers: seq<Worker>): nat {
    if workers == [] then 0 else Busy(workers[..|workers| - 1]) + if workers[|workers| - 1].Calling? then 1 else 0
  }

  function Fresh(workers: seq<Worker>): nat {
    if workers == [] then 0 else Fresh(workers[..|workers| - 1]) + if workers[|workers| - 1].NotStarted? then 1 else 0
  }

  function Ended(workers: seq<Worker>): int { |workers| - Busy(workers) - Fresh(workers) }

  function NonEmpty(ids: seq<LeadId>): nat {
    if ids == [] then 0 else NonEmpty(ids[..|ids| - 1]) + if ids[|ids| - 1] != "" then 1 else 0
  }

  lemma {:induction false} OneWorkerChanges(workers: seq<Worker>, w: nat, x: Worker)
    requires w < |workers|
    ensures Busy(workers[w := x]) == Busy(workers) - (if workers[w].Calling? then 1 else 0)
            + (if x.Calling? then 1 else 0)
    ensures Fresh(workers[w := x]) == Fresh(workers) - (if workers[w].NotStarted? then 1 else 0)
            + (if x.NotStarted? then 1 else 0)
  {
    var n := |workers| - 1;
    if w < n {
      OneWorkerChanges(workers[..n], w, x);
      assert workers[w := x][..n] == workers[..n][w := x];
    } else {
      assert workers[w := x][..n] == workers[..n];
    }
  }

  lemma {:induction false} StoppedMeansNone(workers: seq<Worker>)
    requires forall w | 0 <= w < |workers| :: workers[w].Stopped?
    ensures Busy(workers) == 0 && Fresh(workers) == 0
  {
    if workers != [] { StoppedMeansNone(workers[..|workers| - 1]); }
  }

  lemma {:induction false} NoneYet(n: nat)
    ensures var workers: seq<Worker> := seq(n, _ => NotStarted); Busy(workers) == 0 && Fresh(workers) == n
  {
    if n > 0 {
      var workers: seq<Worker> := seq(n, _ => NotStarted);
      NoneYet(n - 1);
      assert workers[..n - 1] == seq(n - 1, _ => NotStarted);
    }
  }

  lemma OneIdMore(ids: seq<LeadId>, k: nat)
    requires k < |ids|
    ensures NonEmpty(ids[..k + 1]) == NonEmpty(ids[..k]) + if ids[k] != "" then 1 else 0
  {
    assert ids[..k + 1][..k] == ids[..k];
  }

  predicate NoneEmpty(ids: seq<LeadId>) { forall i | 0 <= i < |ids| :: ids[i] != "" }

  lemma {:induction false} NonEmptyIff(ids: seq<LeadId>)
    ensures NonEmpty(ids) <= |ids|
    ensures NonEmpty(ids) == |ids| <==> NoneEmpty(ids)
  {
    if ids != [] {
      var init := ids[..|ids| - 1];
      NonEmptyIff(init);
      if NoneEmpty(ids) {
        forall i | 0 <= i < |init| ensures init[i] != "" { assert ids[i] != ""; }
      }
      if NoneEmpty(init) && ids[|ids| - 1] != "" {
        forall i | 0 <= i < |ids| ensures ids[i] != "" { if i < |init| { assert init[i] != ""; } }
      }
    }
  }

  function Empties(ids: seq<LeadId>): int { |ids| - NonEmpty(ids) }

  /** How far the pool gets: to just past the `n`-th empty id, or to the end if there are fewer. */
  function Cut(ids: seq<LeadId>, n: nat): (k: nat)
    ensures k <= |ids|
  {
    if ids == [] then 0
    else
      var init := ids[..|ids| - 1];
      if Empties(init) < n then |ids| else Cut(init, n)
  }

  /** Fewer than `n` ids before place `k` are empty. */
  ghost predicate Sparse(ids: seq<LeadId>, k: nat, n: nat)
    requires k <= |ids|
  {
    forall j | 0 <= j < k :: Empties(ids[..j]) < n
  }

  /** The cut is the first place with `n` empty ids before it, or the end. */
  lemma {:induction false} CutFacts(ids: seq<LeadId>, n: nat)
    requires n >= 1
    ensures Sparse(ids, Cut(ids, n), n)
    ensures Cut(ids, n) < |ids| ==> Empties(ids[..Cut(ids, n)]) == n && ids[Cut(ids, n) - 1] == ""
    ensures Cut(ids, n) == |ids| ==> Empties(ids) <= n
  {
    if ids != [] {
      var init := ids[..|ids| - 1];
      CutFacts(init, n);
      var k := Cut(ids, n);
      forall j | 0 <= j < k ensures Empties(ids[..j]) < n {
        EmptiesOfPrefix(init, j);
        assert ids[..j] == init[..j];
      }
      if k < |ids| { assert ids[..k] == init[..k]; }
    }
  }

  /** Prefixes have no more empty ids. */
  lemma {:induction false} EmptiesOfPrefix(ids: seq<LeadId>, k: nat)
    requires k <= |ids|
    ensures Empties(ids[..k]) <= Empties(ids)
    decreases |ids|
  {
    if k == |ids| {
      assert ids[..k] == ids;
    } else {
      EmptiesOfPrefix(ids[..|ids| - 1], k);
      assert ids[..|ids| - 1][..k] == ids[..k];
    }
  }

  // ---- What every await point keeps -------------------------------------------------------------------

  /** Each id off the queue has one owner; a calling worker owns what it calls for; nobody else calls for it. */
  ghost predicate Owned(p: Pool) {
    && p.shifted <= |p.ids| && |p.owner| == p.shifted
    && (forall w | 0 <= w < |p.workers| && p.workers[w].Calling? ::
          p.workers[w].k < p.shifted && p.ids[p.workers[w].k] != "" && p.owner[p.workers[w].k] == w)
    && forall v, w | 0 <= v < w < |p.workers| && p.workers[v].Calling? && p.workers[w].Calling? ::
      p.workers[v].k != p.workers[w].k
  }

  /** The counters: settled calls, and calls still open, are the ids taken. Ended workers met an empty id or the end. */
  ghost predicate Tallied(p: Pool) {
    && p.processed == p.succeeded + p.failed && p.shifted <= |p.ids|
    && p.processed + Busy(p.workers) == NonEmpty(p.ids[..p.shifted])
    && Busy(p.workers) + Fresh(p.workers) <= |p.workers|
    && (p.shifted < |p.ids| ==> Ended(p.workers) == Empties(p.ids[..p.shifted]))
    && Sparse(p.ids, p.shifted, |p.workers|)
  }

  /** Reports count 1, 2, 3, ... */
  ghost predicate Reported(p: Pool) {
    && |p.reports| == p.processed
    && forall i | 0 <= i < |p.reports| :: p.reports[i].processed == i + 1 && p.reports[i].total == |p.ids|
  }

  ghost predicate Inv(p: Pool) {
    && p.shifted <= |p.ids| && Owned(p) && Tallied(p) && Reported(p)
  }

  lemma ShiftKeepsInv(p: Pool, w: nat, q: Pool)
    requires w < |p.workers| && !p.workers[w].Stopped? && q == Shift(p, w)
    requires Owned(p) && Reported(p) && p.processed == p.succeeded + p.failed
    requires Busy(p.workers) + Fresh(p.workers) <= |p.workers|
    requires p.processed + Busy(p.workers) == NonEmpty(p.ids[..p.shifted]) + if p.workers[w].Calling? then 1 else 0
    requires p.shifted < |p.ids| ==> Ended(p.workers) == Empties(p.ids[..p.shifted])
    requires p.shifted <= |p.ids| && Sparse(p.ids, p.shifted, |p.workers|)
    ensures Inv(q)
  {
    hide Busy, Fresh, NonEmpty;
    OneWorkerChanges(p.workers, w, q.workers[w]);
    OneWorkerChanges(p.workers, w, Stopped);
    if p.shifted < |p.ids| { OneIdMore(p.ids, p.shifted); }
  }

  lemma StepKeepsInv(p: Pool, e: Event)
    requires Inv(p) && Possible(p, e)
    ensures Inv(Step(p, e))
  {
    hide Busy, Fresh, NonEmpty, Shift;
    if e.Answer? {
      var c := Count(p, e.ok);
      assert Reported(c);
      assert Owned(c);
      ShiftKeepsInv(c, e.worker, Step(p, e));
    } else {
      ShiftKeepsInv(p, e.worker, Step(p, e));
    }
  }

  lemma OpenIsSound(ids: seq<LeadId>, wish: Option<int>)
    ensures Inv(Open(ids, wish))
  {
    NoneYet(Concurrency(wish, |ids|));
    assert ids[..0] == [];
  }

  lemma {:induction false} RunKeepsInv(ids: seq<LeadId>, wish: Option<int>, events: seq<Event>)
    ensures Inv(Run(Open(ids, wish), events)) && Run(Open(ids, wish), events).ids == ids
    ensures |Run(Open(ids, wish), events).workers| == Concurrency(wish, |ids|)
  {
    hide Inv;
    if events == [] {
      OpenIsSound(ids, wish);
    } else {
      RunKeepsInv(ids, wish, events[..|events| - 1]);
      var before, e := Run(Open(ids, wish), events[..|events| - 1]), events[|events| - 1];
      if Possible(before, e) { StepKeepsInv(before, e); }
    }
  }

  // ---- Main results -------------------------------------------------------------------------------------

  /**
   At every await point of every interleaving: each id off the queue was taken by exactly one worker, no two
   workers call for the same place in the list, processed is succeeded plus failed, and the reports so far
   counted up one by one.
   */
  lemma EachLeadOneWorker(ids: seq<LeadId>, wish: Option<int>, events: seq<Event>)
    ensures var p := Run(Open(ids, wish), events);
            && |p.owner| == p.shifted <= |ids|
            && (forall w | 0 <= w < |p.workers| && p.workers[w].Calling? ::
              p.workers[w].k < p.shifted && p.owner[p.workers[w].k] == w)
            && (forall v, w | 0 <= v < w < |p.workers| && p.workers[v].Calling? && p.workers[w].Calling? ::
                  p.workers[v].k != p.workers[w].k)
            && p.processed == p.succeeded + p.failed
            && p.processed + Busy(p.workers) == NonEmpty(ids[..p.shifted])
            && (forall i | 0 <= i < |p.reports| :: p.reports[i].processed == i + 1 && p.reports[i].total == |ids|)
  {
    hide Run, Busy, NonEmpty;
    RunKeepsInv(ids, wish, events);
  }

  /** An owner once set stays: no id is handed out again. */
  lemma OwnerStays(p: Pool, e: Event)
    requires Inv(p) && Possible(p, e)
    ensures p.owner <= Step(p, e).owner
  {
  }

  /** When all workers have ended every id was processed, exactly when no id was empty. */
  lemma AllProcessedIff(ids: seq<LeadId>, wish: Option<int>, events: seq<Event>)
    requires Finished(Run(Open(ids, wish), events))
    ensures var p := Run(Open(ids, wish), events);
            p.processed == |ids| <==> NoneEmpty(ids)
  {
    hide Run, Busy, Fresh, NonEmpty;
    RunKeepsInv(ids, wish, events);
    var p := Run(Open(ids, wish), events);
    StoppedMeansNone(p.workers);
    NonEmptyIff(ids);
    NonEmptyIff(ids[..p.shifted]);
    if NoneEmpty(ids) {
      forall i | 0 <= i < p.shifted ensures ids[..p.shifted][i] != "" { assert ids[i] != ""; }
    }
    if p.shifted == |ids| { assert ids[..p.shifted] == ids; }
  }

  /**
   How far the pool gets, in every interleaving: when all workers have ended, the ids off the queue are those up
   to the empty id that ended the last worker, or all of them, and the non-empty ones among them were processed.
   */
  lemma ProcessedUpToCut(ids: seq<LeadId>, wish: Option<int>, events: seq<Event>)
    requires Finished(Run(Open(ids, wish), events))
    ensures var p, k := Run(Open(ids, wish), events), Cut(ids, Concurrency(wish, |ids|));
            p.shifted == k && p.processed == NonEmpty(ids[..k])
  {
    hide Run, Busy, Fresh, NonEmpty, Empties, Cut;
    RunKeepsInv(ids, wish, events);
    var p, n := Run(Open(ids, wish), events), Concurrency(wish, |ids|);
    StoppedMeansNone(p.workers);
    CutFacts(ids, n);
    CutIsFirst(ids, p.shifted, n);
  }

  /** The cut is the only place with fewer empty ids before all places before it, and enough before itself. */
  lemma CutIsFirst(ids: seq<LeadId>, k: nat, n: nat)
    requires n >= 1 && k <= |ids| && Sparse(ids, k, n) && (k < |ids| ==> Empties(ids[..k]) == n)
    ensures k == Cut(ids, n)
  {
    hide Empties, Cut;
    CutFacts(ids, n);
  }

  /** Nobody but the empty ids is left out exactly when no non-empty id lies past the cut. */
  lemma OnlyEmptiesLostIff(ids: seq<LeadId>, wish: Option<int>, events: seq<Event>)
    requires Finished(Run(Open(ids, wish), events))
    ensures Run(Open(ids, wish), events).processed == NonEmpty(ids) <==>
              forall i | Cut(ids, Concurrency(wish, |ids|)) <= i < |ids| :: ids[i] == ""
  {
    hide Run, Finished, Cut;
    ProcessedUpToCut(ids, wish, events);
    NothingPastIff(ids, Cut(ids, Concurrency(wish, |ids|)));
  }

  lemma {:induction false} NothingPastIff(ids: seq<LeadId>, k: nat)
    requires k <= |ids|
    ensures NonEmpty(ids[..k]) <= NonEmpty(ids)
    ensures NonEmpty(ids[..k]) == NonEmpty(ids) <==> forall i | k <= i < |ids| :: ids[i] == ""
    decreases |ids|
  {
    if k == |ids| {
      assert ids[..k] == ids;
    } else {
      var init := ids[..|ids| - 1];
      NothingPastIff(init, k);
      assert init[..k] == ids[..k];
      assert forall i | k <= i < |init| :: init[i] == ids[i];
      assert (forall i | k <= i < |ids| :: ids[i] == "") <==>
               (forall i | k <= i < |init| :: ids[i] == "") && ids[|ids| - 1] == "";
    }
  }

  /** Fewer empty ids than workers are merely skipped: every other id is still processed. */
  lemma FewEmptyIdsAreSkipped(ids: seq<LeadId>, wish: Option<int>, events: seq<Event>)
    requires Finished(Run(Open(ids, wish), events)) && Empties(ids) < Concurrency(wish, |ids|)
    ensures Run(Open(ids, wish), events).processed == NonEmpty(ids)
  {
    hide Run, NonEmpty, Empties, Finished;
    ProcessedUpToCut(ids, wish, events);
    CutFacts(ids, Concurrency(wish, |ids|));
    EmptiesOfPrefix(ids, Cut(ids, Concurrency(wish, |ids|)));
    assert ids[..|ids|] == ids;
  }

  /** Steps a pool can still take. */
  function Remaining(p: Pool): int { 2 * (|p.ids| - p.shifted) + 2 * Fresh(p.workers) + Busy(p.workers) }

  /**
   The pool ends: every event uses some of a bounded amount, and while a worker has not ended some event is
   possible.
   */
  lemma PoolEnds(p: Pool, e: Event)
    requires Inv(p) && Possible(p, e)
    ensures 0 <= Remaining(Step(p, e)) < Remaining(p)
  {
    hide Busy, Fresh;
    var q := Step(p, e);
    OneWorkerChanges(p.workers, e.worker, q.workers[e.worker]);
  }

  lemma SomethingCanHappen(p: Pool)
    ensures !Finished(p) <==> exists e :: Possible(p, e)
  {
    if !Finished(p) {
      var w: nat :| w < |p.workers| && !p.workers[w].Stopped?;
      assert Possible(p, if p.workers[w].NotStarted? then Begin(w) else Answer(w, true));
    }
  }

  // ---- What the answers and calls were ---------------------------------------------------------------------

  /** The outcomes of the calls that were answered, in order. */
  function Answers(p: Pool, events: seq<Event>): seq<bool> {
    if events == [] then []
    else
      var init, e := events[..|events| - 1], events[|events| - 1];
      Answers(p, init) + if e.Answer? && Possible(Run(p, init), e) then [e.ok] else []
  }

  /** The places called for, in order: after an event its worker may be calling. */
  function Calls(p: Pool, events: seq<Event>): seq<nat> {
    if events == [] then []
    else
      var init, e := events[..|events| - 1], events[|events| - 1];
      var before := Run(p, init);
      Calls(p, init)
      + if Possible(before, e) && Step(before, e).workers[e.worker].Calling? then [Step(before, e).workers[e.worker].k]
        else []
  }

  /** Every counter and report is a count of the answers so far: succeeded of the good ones, failed of the bad ones. */
  ghost predicate Counted(p: Pool, answers: seq<bool>) {
    && p.processed == |answers| == |p.reports|
    && p.succeeded == multiset(answers)[true] && p.failed == multiset(answers)[false]
    && forall i | 0 <= i < |p.reports| :: p.reports[i] == Progress(i + 1, |p.ids|, multiset(answers[..i + 1])[false])
  }

  ghost predicate Increasing(places: seq<nat>) { forall i, j | 0 <= i < j < |places| :: places[i] < places[j] }

  /** The ids off the queue that are not empty were called for, each once, in the order of the list. */
  ghost predicate CalledInOrder(p: Pool, calls: seq<nat>) {
    && p.shifted <= |p.ids| && Increasing(calls)
    && forall k: nat :: k in calls <==> k < p.shifted && p.ids[k] != ""
  }

  lemma OneAnswerMore(p: Pool, answers: seq<bool>, ok: bool)
    requires Counted(p, answers)
    ensures Counted(Count(p, ok), answers + [ok]) && Count(p, ok).workers == p.workers
  {
    var more, q := answers + [ok], Count(p, ok);
    assert multiset(more) == multiset(answers) + multiset{ok};
    forall i | 0 <= i < |q.reports|
      ensures q.reports[i] == Progress(i + 1, |p.ids|, multiset(more[..i + 1])[false])
    {
      assert more[..i + 1] == if i < |answers| then answers[..i + 1] else more;
    }
  }

  lemma ShiftCounts(p: Pool, w: nat, answers: seq<bool>)
    requires w < |p.workers| && Counted(p, answers)
    ensures Counted(Shift(p, w), answers)
  {
  }

  lemma {:induction false} CountersAreAnswers(ids: seq<LeadId>, wish: Option<int>, events: seq<Event>)
    ensures Counted(Run(Open(ids, wish), events), Answers(Open(ids, wish), events))
  {
    hide Concurrency, Counted, Shift, Count, Open;
    if events == [] {
      NothingCounted(ids, wish);
    } else {
      var init, e := events[..|events| - 1], events[|events| - 1];
      CountersAreAnswers(ids, wish, init);
      var before, answers := Run(Open(ids, wish), init), Answers(Open(ids, wish), init);
      if Possible(before, e) {
        if e.Answer? {
          OneAnswerMore(before, answers, e.ok);
          ShiftCounts(Count(before, e.ok), e.worker, answers + [e.ok]);
        } else {
          ShiftCounts(before, e.worker, answers);
          assert answers + [] == answers;
        }
      } else {
        assert answers + [] == answers;
      }
    }
  }

  lemma NothingCounted(ids: seq<LeadId>, wish: Option<int>)
    ensures Counted(Open(ids, wish), [])
  {
  }

  lemma ShiftCalls(p: Pool, w: nat, calls: seq<nat>)
    requires w < |p.workers| && CalledInOrder(p, calls)
    ensures var q := Shift(p, w);
            CalledInOrder(q, calls + if q.workers[w].Calling? then [q.workers[w].k] else [])
  {
    var q := Shift(p, w);
    if q.workers[w].Calling? {
      var more := calls + [p.shifted];
      forall i, j | 0 <= i < j < |more| ensures more[i] < more[j] {
        if j == |calls| { assert calls[i] in calls; }
      }
    } else {
      assert calls + [] == calls;
    }
  }

  lemma {:induction false} EachIdCalledOnce(ids: seq<LeadId>, wish: Option<int>, events: seq<Event>)
    ensures CalledInOrder(Run(Open(ids, wish), events), Calls(Open(ids, wish), events))
  {
    hide Concurrency, CalledInOrder, Shift;
    if events == [] {
      NothingCalled(ids, wish);
    } else {
      var init, e := events[..|events| - 1], events[|events| - 1];
      EachIdCalledOnce(ids, wish, init);
      var before, calls := Run(Open(ids, wish), init), Calls(Open(ids, wish), init);
      if Possible(before, e) {
        if e.Answer? {
          SameCalls(before, Count(before, e.ok), calls);
          ShiftCalls(Count(before, e.ok), e.worker, calls);
        } else {
          ShiftCalls(before, e.worker, calls);
        }
      } else {
        assert calls + [] == calls;
      }
    }
  }

  lemma SameCalls(p: Pool, q: Pool, calls: seq<nat>)
    requires p.ids == q.ids && p.shifted == q.shifted
    ensures CalledInOrder(p, calls) <==> CalledInOrder(q, calls)
  {
  }

  lemma NothingCalled(ids: seq<LeadId>, wish: Option<int>)
    ensures CalledInOrder(Open(ids, wish), [])
  {
  }

  // ---- The pool object -----------------------------------------------------------------------------------

  class WorkerPool {
    const ids: seq<LeadId>
    var queue: seq<LeadId>
    var workers: seq<Worker>
    var processed: nat
    var succeeded: nat
    var failed: nat
    var reports: seq<Progress>
    ghost var owner: seq<nat>

    ghost predicate Valid()
      reads this
    {
      |queue| <= |ids| && queue == ids[|ids| - |queue|..]
    }

    ghost function Snapshot(): Pool
      requires Valid()
      reads this
    {
      Pool(ids, |ids| - |queue|, workers, processed, succeeded, failed, owner, reports)
    }

    constructor (ids: seq<LeadId>, wish: Option<int>)
      ensures Valid() && Snapshot() == Open(ids, wish)
    {
      this.ids, queue := ids, ids;
      workers := seq(Concurrency(wish, |ids|), _ => NotStarted);
      processed, succeeded, failed, reports, owner := 0, 0, 0, [], [];
    }

    method TakeNext(w: nat)
      requires Valid() && w < |workers|
      modifies this
      ensures Valid() && Snapshot() == Shift(old(Snapshot()), w)
    {
      if queue == [] {
        workers := workers[w := Stopped];
        return;
      }
      var k := |ids| - |queue|;
      var leadId := queue[0];
      queue := queue[1..];
      owner := owner + [w];
      workers := workers[w := if leadId == "" then Stopped else Calling(k)];
    }

    method BeginWorker(w: nat)
      requires Valid() && Possible(Snapshot(), Begin(w))
      modifies this
      ensures Valid() && Snapshot() == Step(old(Snapshot()), Begin(w))
    {
      TakeNext(w);
    }

    /** The segment after an answer: counters, callback, and the loop head again. */
    method Settle(w: nat, ok: bool)
      requires Valid() && Possible(Snapshot(), Answer(w, ok))
      modifies this
      ensures Valid() && Snapshot() == Step(old(Snapshot()), Answer(w, ok))
    {
      if ok { succeeded := succeeded + 1; } else { failed := failed + 1; }
      processed := processed + 1;
      reports := reports + [Progress(processed, |ids|, failed)];
      TakeNext(w);
    }
  }
}
