/**
 One action over many items, each in its own savepoint (backend/app/modules/bulk/runner.py, `run_bulk`).

 The database is a value of any type; an action may write before it is refused, and what it wrote is the
 state it leaves. Exceptions other than the two kinds the runner catches leave the loop.
 */
module BulkRunner {
  import opened Wrappers

  datatype Outcome = Done | AppError(code: string, message: string) | DatabaseError | OtherError

  /** The state an action leaves behind, and how it ended. */
  type Action<!S, !Item> = (S, Item) -> (S, Outcome)

  datatype ItemResult<+Id> = ItemResult(id: Id, ok: bool, code: string, message: string)

  datatype Report<+Id> = Report(results: seq<ItemResult<Id>>, succeeded: nat, failed: nat)

  datatype Item<+Id, +Payload> = Item(id: Id, payload: Payload)

  const REJECTED := "rejected"
  const REJECTED_MESSAGE := "This item cannot be changed in its current state"

  /** What the runner reports for an outcome it catches. */
  function ResultOf<Id>(id: Id, o: Outcome): ItemResult<Id>
    requires !o.OtherError?
  {
    match o
    case Done => ItemResult(id, true, "", "")
    case AppError(code, message) => ItemResult(id, false, code, message)
    case DatabaseError => ItemResult(id, false, REJECTED, REJECTED_MESSAGE)
  }

  datatype Progress<+S, +Id> = Progress(state: S, results: seq<ItemResult<Id>>)

  /** Items in order, each rolled back on its own when refused; None when an unexpected error escapes. */
  function Apply<S(!new), Id, P>(s: S, items: seq<Item<Id, P>>, action: Action<S, Item<Id, P>>)
    : Option<Progress<S, Id>>
  {
    if items == [] then Some(Progress(s, []))
    else
      var before, item := Apply(s, items[..|items| - 1], action), items[|items| - 1];
      if before.None? then None
      else
        var (after, outcome) := action(before.value.state, item);
        if outcome.OtherError? then None
        else Some(Progress(if outcome.Done? then after else before.value.state,
                           before.value.results + [ResultOf(item.id, outcome)]))
  }

  /** The same items run one after another with no savepoints; None when one of them is refused. */
  function Serial<S(!new), Id, P>(s: S, items: seq<Item<Id, P>>, action: Action<S, Item<Id, P>>): Option<S> {
    if items == [] then Some(s)
    else
      var before := Serial(s, items[..|items| - 1], action);
      if before.None? then None
      else
        var (after, outcome) := action(before.value, items[|items| - 1]);
        if outcome.Done? then Some(after) else None
  }

  /** The items reported as ok. */
  function OkItems<Id, P>(items: seq<Item<Id, P>>, results: seq<ItemResult<Id>>): seq<Item<Id, P>>
    requires |items| == |results|
  {
    if items == [] then []
    else
      var n := |items| - 1;
      OkItems(items[..n], results[..n]) + if results[n].ok then [items[n]] else []
  }

  function OkCount<Id>(results: seq<ItemResult<Id>>): nat {
    if results == [] then 0 else OkCount(results[..|results| - 1]) + if results[|results| - 1].ok then 1 else 0
  }

  // ---- What the report means -------------------------------------------------------------------------

  lemma {:induction false} ResultsMatchItems<S(!new), Id, P>(s: S, items: seq<Item<Id, P>>, action: Action<S,
        Item<Id, P>>)
    requires Apply(s, items, action).Some?
    ensures var results := Apply(s, items, action).value.results;
            |results| == |items| && forall i | 0 <= i < |items| :: results[i].id == items[i].id
  {
    if items != [] {
      ResultsMatchItems(s, items[..|items| - 1], action);
    }
  }

  /**
   For every list of items and every action: the batch ends in exactly the state reached by running, in
   order and without savepoints, only the items it reports as ok, each of which then succeeds too. Refused
   items leave no trace.
   */
  lemma {:induction false} EndsLikeOkItems<S(!new), Id, P>(s: S, items: seq<Item<Id, P>>,
        action: Action<S, Item<Id, P>>)
    requires Apply(s, items, action).Some?
    ensures var p := Apply(s, items, action).value;
            |p.results| == |items| && Serial(s, OkItems(items, p.results), action) == Some(p.state)
  {
    if items != [] {
      var n := |items| - 1;
      ResultsMatchItems(s, items[..n], action);
      EndsLikeOkItems(s, items[..n], action);
      var before, p := Apply(s, items[..n], action).value, Apply(s, items, action).value;
      assert p.results[..n] == before.results;
      var init, ok := OkItems(items[..n], before.results), OkItems(items, p.results);
      if p.results[n].ok { assert ok == init + [items[n]] && ok[..|ok| - 1] == init; } else { assert ok == init; }
    }
  }

  /** A batch whose every item is reported ok is the plain run. */
  lemma AllOkIsPlainRun<S(!new), Id, P>(s: S, items: seq<Item<Id, P>>, action: Action<S, Item<Id, P>>)
    requires Apply(s, items, action).Some?
    requires forall i | 0 <= i < |Apply(s, items, action).value.results| :: Apply(s, items, action).value.results[i].ok
    ensures Serial(s, items, action) == Some(Apply(s, items, action).value.state)
  {
    ResultsMatchItems(s, items, action);
    EndsLikeOkItems(s, items, action);
    AllOkItems(items, Apply(s, items, action).value.results);
  }

  lemma {:induction false} AllOkItems<Id, P>(items: seq<Item<Id, P>>, results: seq<ItemResult<Id>>)
    requires |items| == |results| && forall i | 0 <= i < |results| :: results[i].ok
    ensures OkItems(items, results) == items
  {
    if items != [] {
      var n := |items| - 1;
      assert forall i | 0 <= i < n :: results[..n][i] == results[i];
      AllOkItems(items[..n], results[..n]);
      assert OkItems(items, results) == OkItems(items[..n], results[..n]) + [items[n]];
      hide OkItems;
      assert items == items[..n] + [items[n]];
    }
  }

  lemma {:induction false} OkCountBound<Id>(results: seq<ItemResult<Id>>)
    ensures OkCount(results) <= |results|
  {
    if results != [] { OkCountBound(results[..|results| - 1]); }
  }

  lemma {:induction false} OkCountIsOkItems<Id, P>(items: seq<Item<Id, P>>, results: seq<ItemResult<Id>>)
    requires |items| == |results|
    ensures OkCount(results) == |OkItems(items, results)|
  {
    if items != [] { OkCountIsOkItems(items[..|items| - 1], results[..|results| - 1]); }
  }

  lemma {:induction false} EscapeStops<S(!new), Id, P>(s: S, items: seq<Item<Id, P>>, n: nat, action: Action<S,
        Item<Id, P>>)
    requires n <= |items| && Apply(s, items[..n], action).None?
    ensures Apply(s, items, action).None?
    decreases |items|
  {
    if n == |items| {
      assert items[..n] == items;
    } else {
      assert items[..|items| - 1][..n] == items[..n];
      EscapeStops(s, items[..|items| - 1], n, action);
    }
  }

  /** The answer for one item: ok, or the error's own code and message, or the fixed words for the database's. */
  ghost predicate Answers<Id>(r: ItemResult<Id>, id: Id, o: Outcome) {
    && r.id == id && (r.ok <==> o.Done?)
    && (o.AppError? ==> r.code == o.code && r.message == o.message)
    && (o.DatabaseError? ==>
          r.code == "rejected" && r.message == "This item cannot be changed in its current state")
  }

  /** How item `k` ended, tried on the state that the items before it left. */
  ghost predicate EndedAs<S(!new), Id, P>(s: S, items: seq<Item<Id, P>>, action: Action<S, Item<Id, P>>, k: nat,
                                          o: Outcome)
    requires k < |items|
  {
    var before := Apply(s, items[..k], action);
    before.Some? && action(before.value.state, items[k]).1 == o
  }

  /**
   What the batch answers, item by item; it has no answer exactly if an item, on the state the ones before it left,
   ends with an error the runner does not catch.
   */
  lemma {:induction false} AnswersIff<S(!new), Id, P>(s: S, items: seq<Item<Id, P>>, action: Action<S, Item<Id, P>>)
    ensures Apply(s, items, action).None? <==> exists k: nat | k < |items| :: EndedAs(s, items, action, k, OtherError)
    ensures Apply(s, items, action).Some? ==>
              var results := Apply(s, items, action).value.results;
              |results| == |items| && forall k: nat, o | k < |items| && EndedAs(s, items, action, k, o) ::
                Answers(results[k], items[k].id, o)
  {
    if items != [] {
      var n: nat := |items| - 1;
      var init := items[..n];
      AnswersIff(s, init, action);
      forall k: nat, o | k < n ensures EndedAs(s, items, action, k, o) <==> EndedAs(s, init, action, k, o) {
        assert init[..k] == items[..k];
      }
      if Apply(s, init, action).Some? {
        assert EndedAs(s, items, action, n, action(Apply(s, init, action).value.state, items[n]).1);
      }
    }
  }

  /** A batch is the plain run exactly if every item is ok; the plain run has no result otherwise. */
  lemma {:induction false} PlainRunIff<S(!new), Id, P>(s: S, items: seq<Item<Id, P>>,
        action: Action<S, Item<Id, P>>)
    ensures Serial(s, items, action).Some? <==>
              Apply(s, items, action).Some? && OkCount(Apply(s, items, action).value.results) == |items|
    ensures Serial(s, items, action).Some? ==> Serial(s, items, action) == Some(Apply(s, items, action).value.state)
  {
    if items != [] {
      PlainRunIff(s, items[..|items| - 1], action);
      if Apply(s, items, action).Some? {
        var p := Apply(s, items, action).value;
        ResultsMatchItems(s, items, action);
        OkCountBound(p.results[..|items| - 1]);
        assert p.results[..|items| - 1] == Apply(s, items[..|items| - 1], action).value.results;
      }
    }
  }

  // ---- The runner --------------------------------------------------------------------------------------

  class Session<S(!new)> {
    var state: S

    constructor (s: S)
      ensures state == s
    {
      state := s;
    }

    /** Runs the batch inside the request's transaction; an escaping error rolls the whole transaction back. */
    method RunBulk<Id, P>(items: seq<Item<Id, P>>, action: Action<S, Item<Id, P>>) returns (r: Option<Report<Id>>)
      modifies this
      ensures match Apply(old(state), items, action)
              case None => r.None? && state == old(state)
              case Some(p) =>
                && state == p.state && r.Some? && r.value.results == p.results
                && r.value.succeeded == OkCount(p.results) && r.value.succeeded + r.value.failed == |items|
    {
      var start := state;
      var results: seq<ItemResult<Id>> := [];
      for i := 0 to |items|
        invariant start == old(state) && Apply(start, items[..i], action) == Some(Progress(state, results))
      {
        assert items[..i + 1][..i] == items[..i];
        var savepoint := state;
        var (after, outcome) := action(state, items[i]);
        state := after;
        match outcome {
          case Done => results := results + [ItemResult(items[i].id, true, "", "")];
          case AppError(code, message) =>
            state := savepoint;
            results := results + [ItemResult(items[i].id, false, code, message)];
          case DatabaseError =>
            state := savepoint;
            results := results + [ItemResult(items[i].id, false, REJECTED, REJECTED_MESSAGE)];
          case OtherError =>
            state := start;
            EscapeStops(start, items, i + 1, action);
            return None;
        }
      }
      assert items[..|items|] == items;
      ResultsMatchItems(start, items, action);
      OkCountBound(results);
      var succeeded := 0;
      for i := 0 to |results|
        invariant succeeded == OkCount(results[..i]) && Apply(start, items, action) == Some(Progress(state, results))
      {
        assert results[..i + 1][..i] == results[..i];
        if results[i].ok { succeeded := succeeded + 1; }
      }
      assert results[..|results|] == results;
      return Some(Report(results, succeeded, |results| - succeeded));
    }
  }
}
