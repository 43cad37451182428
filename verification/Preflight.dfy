/**
 The sequence rules a campaign must meet before it can be activated
 (backend/app/modules/campaigns/preflight.py, `_check_sequence`).

 What an Email step contains is judged elsewhere: a step carries the outcome of the four content checks.
 */
module Preflight {

  datatype Kind = Email | Wait

  datatype Step = Step(kind: Kind, position: int, hasSubject: bool, hasBody: bool, imagesAttached: bool,
        variablesValid: bool)

  datatype Code = SequenceEmpty | MustStartEmail | MustEndEmail | NotAlternating
                | MissingContent | MissingBody | MissingImage | InvalidVariable

  /** `step` is the position named in the field path; None is the whole sequence. */
  datatype Issue = Issue(code: Code, step: int)

  const WHOLE_SEQUENCE := -1

  /** Email at even places, Wait at odd ones, and an odd number of steps. */
  ghost predicate EmailWaitEmail(steps: seq<Step>) {
    && |steps| % 2 == 1
    && forall i | 0 <= i < |steps| :: steps[i].kind == if i % 2 == 0 then Email else Wait
  }

  predicate ContentOk(step: Step) {
    step.kind.Email? ==> step.hasSubject && step.hasBody && step.imagesAttached && step.variablesValid
  }

  /** What the rules promise about a sequence that passes. */
  ghost predicate WellFormed(steps: seq<Step>) {
    EmailWaitEmail(steps) && forall s | s in steps :: ContentOk(s)
  }

  predicate Alternating(steps: seq<Step>) {
    forall i | 0 <= i < |steps| - 1 :: steps[i].kind != steps[i + 1].kind
  }

  function When(c: bool, code: Code, step: int): seq<Issue> {
    if c then [Issue(code, step)] else []
  }

  function StepIssues(s: Step): seq<Issue> {
    if !s.kind.Email? then []
    else When(!s.hasSubject, MissingContent, s.position) + When(!s.hasBody, MissingBody, s.position)
         + When(!s.imagesAttached, MissingImage, s.position) + When(!s.variablesValid, InvalidVariable, s.position)
  }

  function AllStepIssues(steps: seq<Step>): seq<Issue> {
    if steps == [] then [] else AllStepIssues(steps[..|steps| - 1]) + StepIssues(steps[|steps| - 1])
  }

  function SequenceIssues(steps: seq<Step>): seq<Issue> {
    if steps == [] then [Issue(SequenceEmpty, WHOLE_SEQUENCE)]
    else When(!steps[0].kind.Email?, MustStartEmail, WHOLE_SEQUENCE)
         + When(!steps[|steps| - 1].kind.Email?, MustEndEmail, WHOLE_SEQUENCE)
         + When(!Alternating(steps), NotAlternating, WHOLE_SEQUENCE)
         + AllStepIssues(steps)
  }

  lemma {:induction false} NoStepIssues(steps: seq<Step>)
    ensures AllStepIssues(steps) == [] <==> forall s | s in steps :: ContentOk(s)
  {
    if steps != [] {
      var init, last := steps[..|steps| - 1], steps[|steps| - 1];
      NoStepIssues(init);
      assert steps == init + [last];
      assert StepIssues(last) == [] <==> ContentOk(last);
    }
  }

  /** Alternation fixes every kind from the first one. */
  lemma {:induction false} KindByPlace(steps: seq<Step>, i: nat)
    requires i < |steps| && Alternating(steps)
    ensures steps[i].kind == steps[0].kind <==> i % 2 == 0
  {
    if i > 0 {
      KindByPlace(steps, i - 1);
      assert steps[i - 1].kind != steps[i - 1 + 1].kind;
    }
  }

  /**
   The checks pass exactly for sequences of odd length with Email at even and Wait at odd places and sound
   content.
   */
  lemma NoIssuesIff(steps: seq<Step>)
    ensures SequenceIssues(steps) == [] <==> WellFormed(steps)
  {
    NoStepIssues(steps);
    EndsAndAlternation(steps);
    hide Alternating, EmailWaitEmail, AllStepIssues, ContentOk;
  }

  /** The three whole-sequence rules together say exactly Email at even and Wait at odd places, oddly many. */
  lemma EndsAndAlternation(steps: seq<Step>)
    ensures EmailWaitEmail(steps) <==>
              steps != [] && steps[0].kind.Email? && steps[|steps| - 1].kind.Email? && Alternating(steps)
  {
    if EmailWaitEmail(steps) {
      forall i | 0 <= i < |steps| - 1 ensures steps[i].kind != steps[i + 1].kind {}
    }
    if steps != [] && steps[0].kind.Email? && steps[|steps| - 1].kind.Email? && Alternating(steps) {
      forall i: nat | i < |steps| ensures steps[i].kind.Email? <==> i % 2 == 0 {
        KindByPlace(steps, i);
      }
      assert (|steps| - 1) % 2 == 0;
    }
  }

  lemma OneMoreAlternates(steps: seq<Step>, s: Step)
    requires steps != []
    ensures Alternating(steps + [s]) <==> Alternating(steps) && steps[|steps| - 1].kind != s.kind
  {
    var more := steps + [s];
    if Alternating(more) {
      forall i | 0 <= i < |steps| - 1 ensures steps[i].kind != steps[i + 1].kind {
        assert more[i].kind != more[i + 1].kind;
      }
      assert more[|steps| - 1].kind != more[|steps| - 1 + 1].kind;
    }
  }

  lemma NoSteps()
    ensures AllStepIssues([]) == []
  {
  }

  lemma OneStepMore(steps: seq<Step>, i: nat)
    requires i < |steps|
    ensures AllStepIssues(steps[..i + 1]) == AllStepIssues(steps[..i]) + StepIssues(steps[i])
  {
    assert steps[..i + 1][..i] == steps[..i];
  }

  class Report {
    var errors: seq<Issue>

    constructor ()
      ensures errors == []
    {
      errors := [];
    }

    method Add(c: bool, code: Code, step: int)
      modifies this
      ensures errors == old(errors) + When(c, code, step)
    {
      if c { errors := errors + [Issue(code, step)]; }
    }

    method CheckSequence(steps: seq<Step>)
      modifies this
      ensures errors == old(errors) + SequenceIssues(steps)
    {
      hide Alternating, AllStepIssues, When;
      if steps == [] {
        errors := errors + [Issue(SequenceEmpty, WHOLE_SEQUENCE)];
        return;
      }
      Add(!steps[0].kind.Email?, MustStartEmail, WHOLE_SEQUENCE);
      Add(!steps[|steps| - 1].kind.Email?, MustEndEmail, WHOLE_SEQUENCE);
      var alternating := KindsAlternate(steps);
      Add(!alternating, NotAlternating, WHOLE_SEQUENCE);
      CheckSteps(steps);
    }

    static method KindsAlternate(steps: seq<Step>) returns (alternating: bool)
      requires steps != []
      ensures alternating == Alternating(steps)
    {
      alternating := true;
      for i := 0 to |steps| - 1
        invariant alternating <==> Alternating(steps[..i + 1])
      {
        assert steps[..i + 2] == steps[..i + 1] + [steps[i + 1]];
        OneMoreAlternates(steps[..i + 1], steps[i + 1]);
        if steps[i].kind == steps[i + 1].kind { alternating := false; }
      }
      assert steps[..|steps|] == steps;
    }

    method CheckSteps(steps: seq<Step>)
      modifies this
      ensures errors == old(errors) + AllStepIssues(steps)
    {
      hide StepIssues, AllStepIssues;
      NoSteps();
      for i := 0 to |steps|
        invariant errors == old(errors) + AllStepIssues(steps[..i])
      {
        OneStepMore(steps, i);
        CheckStep(steps[i]);
      }
      assert steps[..|steps|] == steps;
    }

    method CheckStep(s: Step)
      modifies this
      ensures errors == old(errors) + StepIssues(s)
    {
      if !s.kind.Email? { return; }
      Add(!s.hasSubject, MissingContent, s.position);
      Add(!s.hasBody, MissingBody, s.position);
      Add(!s.imagesAttached, MissingImage, s.position);
      Add(!s.variablesValid, InvalidVariable, s.position);
    }
  }
}
