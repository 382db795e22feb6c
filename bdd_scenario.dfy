/**
 * The Scenario class: a fluent builder that appends Given/When/Then/And
 * steps, checking the phase order as each one is added, and a runner that
 * executes the steps in order on one shared context and always resets the
 * scenario afterwards.
 */
module BddScenario {
  import Wrappers
  import opened Exceptions
  import opened ScenarioContext
  import opened BddSteps
  import opened BddRun

  class Scenario<!V> {
    const scenarioDescription: string
    /** the shared context, one dictionary for the scenario's whole life */
    const context: Dictionary<V>
    var steps: seq<Step<V>>
    /** the type of the most recently added step, which an And step copies */
    var lastStepType: StepType
    /** the phase checked by ValidateStepOrder */
    var currentPhase: StepType

    /**
     * Between calls: both cursors agree and are the phase of the last step
     * (None exactly when there are no steps), the steps are well ordered,
     * and the context is empty.
     */
    ghost predicate Valid()
      reads this, context
    {
      && lastStepType == currentPhase
      && currentPhase == PhaseOf(Kinds(steps))
      && WellOrdered(Kinds(steps))
      && context.entries == map[]
    }

    /** Scenario.Create: a scenario with no steps, both cursors None and an empty context. */
    constructor (description: string)
      ensures Valid() && fresh(context)
      ensures scenarioDescription == description
      ensures steps == [] && currentPhase == StepType.None && lastStepType == StepType.None
    {
      scenarioDescription := description;
      context := new Dictionary<V>();
      steps := [];
      lastStepType := StepType.None;
      currentPhase := StepType.None;
    }

    /**
     * Checks that a step of type `newStepType` may come next; when it may,
     * moves the phase to it (a None step moves nothing).
     */
    method ValidateStepOrder(newStepType: StepType) returns (r: Outcome)
      modifies this`currentPhase
      ensures r == CheckOrder(old(currentPhase), newStepType)
      ensures currentPhase == if r.Pass? && newStepType != StepType.None then newStepType else old(currentPhase)
    {
      match newStepType {
        case Given =>
          if currentPhase != StepType.None && currentPhase != StepType.Given {
            return Fail(OrderingError(GivenOrderMessage));
          }
        case When =>
          if currentPhase != StepType.None && currentPhase != StepType.Given && currentPhase != StepType.When {
            return Fail(OrderingError(WhenOrderMessage));
          }
        case Then =>
          if currentPhase != StepType.When && currentPhase != StepType.Then {
            return Fail(OrderingError(ThenOrderMessage));
          }
        case None =>
      }
      if newStepType != StepType.None {
        currentPhase := newStepType;
      }
      r := Pass;
    }

    /** Facts that make Valid hold again after a Given, When or Then step is appended. */
    lemma AppendKeepsValid(oldSteps: seq<Step<V>>, step: Step<V>)
      requires WellOrdered(Kinds(oldSteps)) && step.kind != StepType.None
      requires CheckOrder(PhaseOf(Kinds(oldSteps)), step.kind).Pass?
      ensures WellOrdered(Kinds(oldSteps + [step]))
      ensures PhaseOf(Kinds(oldSteps + [step])) == step.kind
    {
      KindsAppend(oldSteps, step);
      CheckOrderKeepsWellOrdered(Kinds(oldSteps), step.kind);
    }

    /**
     * Given: accepted only while no When or Then step has been added. On
     * success it appends one Given step and moves both cursors to Given;
     * on failure nothing changes.
     */
    method Given(description: string, action: Action<V>) returns (r: Outcome)
      requires Valid()
      modifies this
      ensures Valid()
      ensures r.Pass? <==> old(currentPhase) == StepType.None || old(currentPhase) == StepType.Given
      ensures r.Fail? ==> r.error == OrderingError(GivenOrderMessage)
      ensures r.Fail? ==> steps == old(steps) && currentPhase == old(currentPhase) && lastStepType == old(lastStepType)
      ensures r.Pass? ==> && steps == old(steps) + [Step(StepType.Given, description, action)]
                          && currentPhase == StepType.Given && lastStepType == StepType.Given
    {
      r := ValidateStepOrder(StepType.Given);
      if r.Fail? {
        return;
      }
      AppendKeepsValid(steps, Step(StepType.Given, description, action));
      steps := steps + [Step(StepType.Given, description, action)];
      lastStepType := StepType.Given;
    }

    /**
     * When: rejected only after a Then step, so it may also come first. On
     * success it appends one When step and moves both cursors to When; on
     * failure nothing changes.
     */
    method When(description: string, action: Action<V>) returns (r: Outcome)
      requires Valid()
      modifies this
      ensures Valid()
      ensures r.Pass? <==> old(currentPhase) != StepType.Then
      ensures r.Fail? ==> r.error == OrderingError(WhenOrderMessage)
      ensures r.Fail? ==> steps == old(steps) && currentPhase == old(currentPhase) && lastStepType == old(lastStepType)
      ensures r.Pass? ==> && steps == old(steps) + [Step(StepType.When, description, action)]
                          && currentPhase == StepType.When && lastStepType == StepType.When
    {
      r := ValidateStepOrder(StepType.When);
      if r.Fail? {
        return;
      }
      AppendKeepsValid(steps, Step(StepType.When, description, action));
      steps := steps + [Step(StepType.When, description, action)];
      lastStepType := StepType.When;
    }

    /**
     * Then: accepted only once the phase is When or Then, so never first and
     * never straight after Given. On success it appends one Then step and
     * moves both cursors to Then; on failure nothing changes.
     */
    method Then(description: string, action: Action<V>) returns (r: Outcome)
      requires Valid()
      modifies this
      ensures Valid()
      ensures r.Pass? <==> old(currentPhase) == StepType.When || old(currentPhase) == StepType.Then
      ensures r.Fail? ==> r.error == OrderingError(ThenOrderMessage)
      ensures r.Fail? ==> steps == old(steps) && currentPhase == old(currentPhase) && lastStepType == old(lastStepType)
      ensures r.Pass? ==> && steps == old(steps) + [Step(StepType.Then, description, action)]
                          && currentPhase == StepType.Then && lastStepType == StepType.Then
    {
      r := ValidateStepOrder(StepType.Then);
      if r.Fail? {
        return;
      }
      AppendKeepsValid(steps, Step(StepType.Then, description, action));
      steps := steps + [Step(StepType.Then, description, action)];
      lastStepType := StepType.Then;
    }

    /**
     * And: continues the type of the last step. It fails when no step has
     * been added; otherwise it appends one step of type lastStepType, which
     * the runner labels "  And", and leaves both cursors as they were.
     */
    method And(description: string, action: Action<V>) returns (r: Outcome)
      requires Valid()
      modifies this
      ensures Valid()
      ensures r.Pass? <==> old(lastStepType) != StepType.None
      ensures r.Fail? ==> r.error == OrderingError(AndOrderMessage)
      ensures r.Fail? ==> steps == old(steps)
      ensures r.Pass? ==> steps == old(steps) + [Step(old(lastStepType), description, action)]
      ensures currentPhase == old(currentPhase) && lastStepType == old(lastStepType)
      ensures r.Pass? ==> StepPrefix(steps, steps[|steps| - 1].kind, |steps| - 1) == "  And"
    {
      if lastStepType == StepType.None {
        return Fail(OrderingError(AndOrderMessage));
      }
      var step := Step(lastStepType, description, action);
      PhaseNoneIffEmpty(Kinds(steps));
      AndKeepsWellOrdered(Kinds(steps));
      KindsAppend(steps, step);
      steps := steps + [step];
      r := Pass;
    }

    /**
     * RunAsync: runs the steps in order on the shared context and stops at
     * the first one that throws, reporting it as an InvalidOperation that
     * names the scenario and the step and carries the step's exception. On
     * every exit the context and the steps are cleared and both cursors go
     * back to None.
     */
    method RunAsync() returns (r: Outcome)
      requires Valid()
      modifies this, context
      ensures Valid()
      ensures r == Verdict(scenarioDescription, old(steps))
      ensures context.entries == map[] && steps == []
      ensures currentPhase == StepType.None && lastStepType == StepType.None
    {
      r := Pass;
      var i := 0;
      while i < |steps|
        invariant 0 <= i <= |steps|
        invariant steps == old(steps)
        invariant r == Pass
        invariant Execute(steps, context.entries, i) == Execute(steps, map[], 0)
      {
        var step := steps[i];
        match step.action(context.entries) {
          case Threw(ex) =>
            r := Fail(InvalidOperation(FailureMessage(scenarioDescription, steps, i), Wrappers.Some(ex)));
            assert Execute(steps, context.entries, i) == Aborted(i, context.entries, ex);
            break;
          case Done(next) =>
            context.entries := next;
        }
        i := i + 1;
      }
      // the `finally` block
      context.Clear();
      steps := [];
      lastStepType := StepType.None;
      currentPhase := StepType.None;
    }
  }
}
