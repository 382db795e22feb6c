/**
 * Clients of the Scenario class that replay the scenarios of the
 * repository's tests, using only the contracts of the builder and runner.
 */
module BddExamples {
  import Wrappers
  import opened Exceptions
  import opened BddSteps
  import opened BddRun
  import opened BddScenario

  /** The values the example steps store in the context. */
  datatype Value = Number(n: int) | Flag(b: bool) | Log(entries: seq<string>)

  function LogOf(context: map<string, Value>): seq<string>
  {
    if "order" in context && context["order"].Log? then context["order"].entries else []
  }

  /** An action that appends `entry` to the log kept under "order". */
  function Record(entry: string): Action<Value>
  {
    context => Done(context["order" := Log(LogOf(context) + [entry])])
  }

  /** Ordering errors: Then first, Then after Given, Given after When, When after Then, And first. */
  method OrderingErrors()
  {
    var noop: Action<Value> := context => Done(context);
    var s := new Scenario<Value>("Test");
    var r := s.Then("assertion without action", noop);
    assert r == Fail(OrderingError(ThenOrderMessage)) && s.steps == [];
    r := s.And("invalid step", noop);
    assert r == Fail(OrderingError(AndOrderMessage)) && s.steps == [];
    r := s.Given("setup", noop);
    r := s.Then("assertion without action", noop);
    assert r == Fail(OrderingError(ThenOrderMessage)) && |s.steps| == 1;
    r := s.When("action", noop);
    assert r == Pass;
    r := s.Given("setup after action", noop);
    assert r == Fail(OrderingError(GivenOrderMessage));
    r := s.Then("assertion", noop);
    assert r == Pass;
    r := s.When("action after assertion", noop);
    assert r == Fail(OrderingError(WhenOrderMessage));
    r := s.Given("setup after assertion", noop);
    assert r == Fail(OrderingError(GivenOrderMessage));
    r := s.And("second assertion", noop);
    assert r == Pass && s.steps[|s.steps| - 1].kind == StepType.Then;
  }

  /** When may come first, and Then may follow it. */
  method WhenFirst()
  {
    var noop: Action<Value> := context => Done(context);
    var s := new Scenario<Value>("Test");
    var r := s.When("action without setup", noop);
    assert r == Pass;
    r := s.Then("result", noop);
    assert r == Pass && |s.steps| == 2;
  }

  /** A failing middle step stops the run; the Then step after it never runs. */
  method ErrorInMiddleStep()
  {
    var boom := Raised("Exception", "Simulated failure");
    var s := new Scenario<Value>("Scenario with error in middle step");
    var r := s.Given("initial setup", context => Done(context["value" := Number(1)]));
    r := s.When("first action", context => Done(context["value" := Number(2)]));
    r := s.And("action that fails", context => Threw(boom));
    r := s.Then("should not reach here", context => Done(context["value" := Number(3)]));
    assert r == Pass;
    ghost var steps := s.steps;
    ghost var c1, c2 := map["value" := Number(1)], map["value" := Number(2)];
    assert Execute(steps, c2, 2) == Aborted(2, c2, boom);
    assert Execute(steps, c1, 1) == Execute(steps, c2, 2);
    assert Execute(steps, map[], 0) == Execute(steps, c1, 1);
    r := s.RunAsync();
    RunFailureWrapsCause("Scenario with error in middle step", steps);
    assert r.Fail? && r.error.InvalidOperation? && r.error.inner == Wrappers.Some(boom);
    assert Contains(r.error.message, "action that fails");
    assert Contains(r.error.message, "Scenario with error in middle step");
    assert s.steps == [] && s.context.entries == map[];
  }

  /** The steps of the ordering test, as the builder records them. */
  function OrderSteps(): seq<Step<Value>>
  {
    [Step(StepType.Given, "first", Record("Given1")), Step(StepType.Given, "second", Record("Given2")),
     Step(StepType.When, "action", Record("When")), Step(StepType.When, "another action", Record("When2")),
     Step(StepType.Then, "assertion", Record("Then")), Step(StepType.Then, "another assertion", Record("Then2"))]
  }

  /** Running the ordering test's steps logs them in the order they were added. */
  lemma OrderStepsLogInOrder()
    ensures Execute(OrderSteps(), map[], 0).Completed?
    ensures LogOf(Execute(OrderSteps(), map[], 0).context) == ["Given1", "Given2", "When", "When2", "Then", "Then2"]
  {
  }

  /** Steps run in the order they were added, And steps included. */
  method StepsRunInOrder()
  {
    var s := new Scenario<Value>("Test");
    ghost var expected := OrderSteps();
    var r := s.Given("first", Record("Given1"));
    assert s.steps == expected[..1];
    r := s.And("second", Record("Given2"));
    assert s.steps == expected[..2];
    r := s.When("action", Record("When"));
    assert s.steps == expected[..3];
    r := s.And("another action", Record("When2"));
    assert s.steps == expected[..4];
    r := s.Then("assertion", Record("Then"));
    assert s.steps == expected[..5];
    r := s.And("another assertion", Record("Then2"));
    assert s.steps == expected;
    OrderStepsLogInOrder();
    r := s.RunAsync();
    assert r == Pass;
  }

  /** A second run on the same scenario sees nothing the first one stored. */
  method ContextDoesNotLeak()
  {
    var noop: Action<Value> := context => Done(context);
    var s := new Scenario<Value>("Test");
    var r := s.Given("value is set", context => Done(context["key" := Flag(true)]));
    r := s.When("value exists", context => if "key" in context then Done(context) else Threw(Raised("Exception", "missing")));
    r := s.Then("done", noop);
    ghost var steps := s.steps;
    ghost var c1 := map["key" := Flag(true)];
    assert Execute(steps, c1, 1) == Execute(steps, c1, 2) == Completed(c1);
    r := s.RunAsync();
    assert r == Pass;
    r := s.Given("check empty", context => if "key" in context then Threw(Raised("Exception", "leaked")) else Done(context));
    r := s.When("action", noop);
    r := s.Then("done", noop);
    steps := s.steps;
    assert Execute(steps, map[], 1) == Execute(steps, map[], 2) == Completed(map[]);
    r := s.RunAsync();
    assert r == Pass;
  }
}
