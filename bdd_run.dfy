/**
 * What running a scenario means: the steps' actions applied one after
 * another to the shared context, stopping at the first one that throws,
 * and the labels and failure message the runner derives from the steps.
 */
module BddRun {
  import Wrappers
  import opened Exceptions
  import opened BddSteps

  /** How a run of the steps ends, before the cleanup. */
  datatype Execution<V> =
    /** every step completed; the context as the last step left it */
    | Completed(context: map<string, V>)
    /** step `index` threw `error` when given `context` */
    | Aborted(index: nat, context: map<string, V>, error: Exception)

  /**
   * Runs steps[from..] in list order, each on the context the previous one
   * left, and stops at the first step that throws.
   */
  function Execute<V>(steps: seq<Step<V>>, context: map<string, V>, from: nat): (r: Execution<V>)
    requires from <= |steps|
    ensures r.Aborted? ==> from <= r.index < |steps| && steps[r.index].action(r.context) == Threw(r.error)
    decreases |steps| - from
  {
    if from == |steps| then Completed(context)
    else match steps[from].action(context)
      case Threw(e) => Aborted(from, context, e)
      case Done(next) => Execute(steps, next, from + 1)
  }

  /**
   * In order, each once: when step k throws, the steps before it all ran,
   * one after another, and handed step k the context it threw on.
   */
  lemma {:induction false} ExecuteRunsPrefix<V>(steps: seq<Step<V>>, context: map<string, V>, from: nat)
    requires from <= |steps| && Execute(steps, context, from).Aborted?
    ensures var x := Execute(steps, context, from);
            Execute(steps[..x.index], context, from) == Completed(x.context)
    decreases |steps| - from
  {
    var x := Execute(steps, context, from);
    match steps[from].action(context)
    case Threw(e) =>
      assert x.index == from;
    case Done(next) =>
      ExecuteRunsPrefix(steps, next, from + 1);
      assert steps[..x.index][from] == steps[from];
  }

  /**
   * No later step runs: once step k throws, replacing everything after it
   * by any other steps gives the same run.
   */
  lemma {:induction false} ExecuteIgnoresLaterSteps<V>(steps: seq<Step<V>>, context: map<string, V>, from: nat,
                                                       rest: seq<Step<V>>)
    requires from <= |steps| && Execute(steps, context, from).Aborted?
    ensures var x := Execute(steps, context, from);
            Execute(steps[..x.index + 1] + rest, context, from) == x
    decreases |steps| - from
  {
    var x := Execute(steps, context, from);
    var other := steps[..x.index + 1] + rest;
    assert other[from] == steps[from];
    match steps[from].action(context)
    case Threw(e) =>
    case Done(next) =>
      ExecuteIgnoresLaterSteps(steps, next, from + 1, rest);
  }

  /**
   * GetStepPrefix: the label printed before a step. A step of the same type
   * as the step before it in the list reads "  And"; otherwise the label
   * names its phase. Labels are five characters wide so that the
   * descriptions line up; a step without a phase gets no label.
   */
  function StepPrefix<V>(steps: seq<Step<V>>, stepType: StepType, stepIndex: nat): (r: string)
    requires stepIndex <= |steps|
    ensures r == "  And" <==> stepIndex > 0 && steps[stepIndex - 1].kind == stepType
    ensures r == "" <==> stepType == None && !(stepIndex > 0 && steps[stepIndex - 1].kind == stepType)
    ensures r != "" ==> |r| == 5
    ensures !(stepIndex > 0 && steps[stepIndex - 1].kind == stepType) ==>
              && (stepType == Given ==> r == "Given")
              && (stepType == When ==> r == " When")
              && (stepType == Then ==> r == " Then")
  {
    if stepIndex > 0 && steps[stepIndex - 1].kind == stepType then "  And"
    else match stepType
      case Given => "Given"
      case When => " When"
      case Then => " Then"
      case None => ""
  }

  /** In a well-ordered step list every step gets a label: the empty one is never used. */
  lemma WellOrderedStepsAreLabelled<V>(steps: seq<Step<V>>, i: nat)
    requires WellOrdered(Kinds(steps)) && i < |steps|
    ensures StepPrefix(steps, steps[i].kind, i) != ""
  {
  }

  /** A step as the runner shows it: its label, a space, its description. */
  function StepDescription<V>(steps: seq<Step<V>>, index: nat): string
    requires index < |steps|
  {
    StepPrefix(steps, steps[index].kind, index) + " " + steps[index].description
  }

  /** The message of the exception a failed run throws, naming the scenario and the step. */
  function FailureMessage<V>(description: string, steps: seq<Step<V>>, index: nat): string
    requires index < |steps|
  {
    "Scenario '" + description + "' failed at step: " + StepDescription(steps, index)
  }

  /** `part` occurs in `s` starting at position `at`. */
  predicate OccursAt(s: string, part: string, at: nat)
  {
    at + |part| <= |s| && s[at..at + |part|] == part
  }

  ghost predicate Contains(s: string, part: string)
  {
    exists at :: OccursAt(s, part, at)
  }

  /** The failure message contains the scenario's description and ends with the failing step's. */
  lemma FailureMessageNamesScenarioAndStep<V>(description: string, steps: seq<Step<V>>, index: nat)
    requires index < |steps|
    ensures var m := FailureMessage(description, steps, index);
            && OccursAt(m, description, |"Scenario '"|)
            && OccursAt(m, steps[index].description, |m| - |steps[index].description|)
            && Contains(m, description) && Contains(m, steps[index].description)
  {
    var m := FailureMessage(description, steps, index);
    var head := "Scenario '";
    var tail := "' failed at step: " + StepPrefix(steps, steps[index].kind, index) + " ";
    var d := steps[index].description;
    assert m == head + description + tail + d by {
      assert StepDescription(steps, index) == StepPrefix(steps, steps[index].kind, index) + " " + d;
    }
    assert m[|head|..|head| + |description|] == description;
    assert m[|m| - |d|..] == d;
    assert OccursAt(m, description, |head|);
    assert OccursAt(m, d, |m| - |d|);
  }

  /**
   * What RunAsync reports for a scenario whose context starts empty: success,
   * or an InvalidOperation exception naming the scenario and the failing
   * step, with the step's own exception as its inner exception.
   */
  function Verdict<V>(description: string, steps: seq<Step<V>>): Outcome
  {
    match Execute(steps, map[], 0)
    case Completed(_) => Pass
    case Aborted(k, _, e) => Fail(InvalidOperation(FailureMessage(description, steps, k), Wrappers.Some(e)))
  }

  /**
   * A run fails exactly when some step throws; the failure then wraps that
   * step's exception, names the scenario and the step, and every step before
   * it has completed in order.
   */
  lemma RunFailureWrapsCause<V>(description: string, steps: seq<Step<V>>)
    ensures Verdict(description, steps).Fail? <==> Execute(steps, map[], 0).Aborted?
    ensures Verdict(description, steps).Fail? ==>
              var x := Execute(steps, map[], 0);
              var e := Verdict(description, steps).error;
              && x.index < |steps|
              && steps[x.index].action(x.context) == Threw(x.error)
              && Execute(steps[..x.index], map[], 0) == Completed(x.context)
              && e.InvalidOperation? && e.inner == Wrappers.Some(x.error)
              && Contains(e.message, description) && Contains(e.message, steps[x.index].description)
  {
    var x := Execute(steps, map[], 0);
    if x.Aborted? {
      ExecuteRunsPrefix(steps, map[], 0);
      FailureMessageNamesScenarioAndStep(description, steps, x.index);
    }
  }

  /** A run succeeds exactly when every step completes. */
  lemma RunSuccessRunsAll<V>(description: string, steps: seq<Step<V>>)
    ensures Verdict(description, steps) == Pass <==> Execute(steps, map[], 0).Completed?
  {
  }
}
