# BDD scenario engine: a Dafny model

This project models the BDD scenario engine of an acceptance-testing toolkit.
The engine is the `Scenario` class, which has two parts:

- a fluent builder that appends Given/When/Then/And steps and rejects steps
  that come in the wrong order;
- a runner that executes the steps in order on one shared string-keyed
  context, stops at the first step that throws, and always resets the
  scenario afterwards.

Two small helpers are modelled beside it:

- `UrlBuilder`, which joins a base URL and a relative URL;
- the typed `Set`/`Get` extensions over the scenario context.

Files and modules:

- `wrappers.dfy` (`Wrappers`): `Option`.
- `exceptions.dfy` (`Exceptions`): the exceptions involved (`InvalidOperation`
  with its inner exception, `KeyNotFound`, `InvalidCast`, anything a step
  throws). Also `Outcome` (a void call that completes or throws) and `Result`
  (a call that returns a value or throws).
- `url_builder.dfy` (`UrlBuilding`): the builder is an immutable value. A
  null .NET string is `Null`; string interpolation writes it as `""`.
- `scenario_context.dfy` (`ScenarioContext`): the context is a `Dictionary`
  object whose `entries` map is updated in place. `Set` is a method on it.
  `Get` is a lookup plus a cast, where the cast is a partial function
  `V -> Option<T>`.
- `bdd_steps.dfy` (`BddSteps`): step types, step records, and the ordering
  table that `ValidateStepOrder` applies (`CheckOrder`). It also defines an
  independent description of a well-ordered step list (`WellOrdered`, and the
  Given* When* Then* shape `GherkinSplit`). The lemmas prove that the table
  accepts a step exactly when the list stays well ordered.
- `bdd_run.dfy` (`BddRun`): the specification of a run. `Execute` applies the
  actions in list order and stops at the first throw. The module also holds
  the step labels (`StepPrefix`), the failure message and the run's verdict.
- `bdd_scenario.dfy` (`BddScenario`): the `Scenario` class.
  - Fields: the steps, the two cursors `lastStepType` and `currentPhase`, and
    the context.
  - Invariant `Valid()`: both cursors equal the phase of the last step (None
    exactly when there are no steps); the steps are well ordered; the context
    is empty between runs.
  - `RunAsync` is a loop whose `ensures` ties its result to `Verdict` of the
    old steps. It clears the state on every exit.
- `bdd_examples.dfy` (`BddExamples`): clients that replay the scenarios of
  the repository's tests against the contracts alone. They cover:
  - the ordering errors;
  - When as the first step;
  - a failing middle step that stops the run;
  - the execution order of six steps;
  - that nothing leaks from one run into the next.

A step action is a total function from the context to `Done(newContext)` or
`Threw(exception)`. The synchronous and asynchronous overloads of each builder
method are one method here, because the synchronous form is only adapted into
the asynchronous one. Because `UrlBuilder` is a value and its operations are
functions, repeated calls with the same input give the same output.

Points of the code that a reader might not expect, which the model follows:

- A successful `And` leaves `lastStepType` unchanged. The `And` overloads
  (src/Playwright.XUnit/BDD/Scenario.cs:205-242) never assign `_lastStepType`.
  The `Given`, `When` and `Then` overloads do (lines 99, 118, 137, 156, 175
  and 194).
- The context is never cleared at the start of a run. It is empty at the start
  because it is created empty and cleared at the end of every run. The model
  states this as part of `Valid()`.
- The "  And" label depends on the previous step in the final list, not on
  whether `And` was called. So the second of two `Given` calls is also shown
  as "  And". `WellOrderedStepsAreLabelled` shows that the empty label (the
  `_ => string.Empty` branch) is never used for a scenario the builder
  accepted.

## Model

| member | source | states |
|---|---|---|
| `UrlBuilding.UrlBuilder.GetBaseUrl` | src/AcceptanceTesting.Core/UrlBuilder.cs:14-23 | returns exactly the base string given at construction; a null base reads as "" |
| `UrlBuilding.UrlBuilder.GetUrl` | src/AcceptanceTesting.Core/UrlBuilder.cs:30 | the result has the base as prefix and the relative URL as the rest, and its length is the sum of their lengths |
| `UrlBuilding.GetUrlRoundTrip` | src/AcceptanceTesting.Core/UrlBuilder.cs:30 | stripping the base from GetUrl(r) gives back r (GetUrl is inverted by RelativePart) |
| `UrlBuilding.GetUrlInjective` | src/AcceptanceTesting.Core/UrlBuilder.cs:30 | two relative URLs give the same full URL only if they are equal |
| `UrlBuilding.GetUrlOfEmptyIsBase` | src/AcceptanceTesting.Core/UrlBuilder.cs:30 | GetUrl("") and GetUrl(null) both equal the base URL |
| `UrlBuilding.NoSlashNormalisation` | src/AcceptanceTesting.Core/UrlBuilder.cs:30 | a base ending in '/' and a relative URL starting with '/' give "//" where they meet |
| `UrlBuilding.DoubledSlashExample` | Playwright.Tests/Application/Services/UrlBuilderTests.cs:136-150 | "https://example.com/" + "/api/users" gives "https://example.com//api/users"; these tests belong to a sibling `UrlBuilder` class, assumed to join the strings the same way |
| `ScenarioContext.Dictionary.constructor` | src/Playwright.XUnit/BDD/Scenario.cs:29 | a new context dictionary is empty |
| `ScenarioContext.Dictionary.Clear` | src/Playwright.XUnit/BDD/Scenario.cs:286 | clearing leaves no entries |
| `ScenarioContext.Set` | src/Playwright.XUnit/Extensions/ScenarioContextExtensions.cs:10-13 | the new map is the old one with key bound to the boxed value (added or overwritten); the key set becomes old keys plus key |
| `ScenarioContext.Get` | src/Playwright.XUnit/Extensions/ScenarioContextExtensions.cs:15-18 | succeeds iff the key is present and its value casts to T, returning that value; otherwise KeyNotFound for a missing key, InvalidCast for a wrong type |
| `ScenarioContext.GetAfterSet` | src/Playwright.XUnit/Extensions/ScenarioContextExtensions.cs:10-18 | round trip: Get right after Set of the same key returns the value set |
| `ScenarioContext.SetLeavesOtherKeys` | src/Playwright.XUnit/Extensions/ScenarioContextExtensions.cs:12 | Set leaves what every other key reads unchanged |
| `ScenarioContext.SetGrowsKeysByAtMostOne` | src/Playwright.XUnit/Extensions/ScenarioContextExtensions.cs:12 | Set grows the key count by one for a new key and not at all for an existing key |
| `ScenarioContext.GetAtWrongTypeFails` | src/Playwright.XUnit/Extensions/ScenarioContextExtensions.cs:17 | reading a stored value at a type it does not have throws InvalidCast |
| `BddSteps.CheckOrder` | src/Playwright.XUnit/BDD/Scenario.cs:51-76 | a step is accepted iff it does not go back a phase and, for Then, the phase has reached When; each rejection carries its exact message |
| `BddSteps.PhaseNoneIffEmpty` | src/Playwright.XUnit/BDD/Scenario.cs:78-81 | in a well-ordered list the phase is None exactly when there are no steps |
| `BddSteps.CheckOrderKeepsWellOrdered` | src/Playwright.XUnit/BDD/Scenario.cs:51-82 | the ordering check accepts a Given/When/Then step iff the extended step list is still well ordered (both directions) |
| `BddSteps.AndKeepsWellOrdered` | src/Playwright.XUnit/BDD/Scenario.cs:205-219 | an And step, which repeats the last phase, keeps the list well ordered |
| `BddSteps.GherkinSplitIsWellOrdered` | src/Playwright.XUnit/BDD/Scenario.cs:51-76 | every Given* When* Then* list with a When before any Then is well ordered |
| `BddSteps.GherkinAcceptedStepByStep` | src/Playwright.XUnit/BDD/Scenario.cs:51-82 | in a Given* When* Then* list with a When before any Then, every step passes the ordering check against the phase its predecessors reached, so the builder accepts the list one call at a time |
| `BddSteps.WellOrderedHasGherkinSplit` | src/Playwright.XUnit/BDD/Scenario.cs:51-76 | every well-ordered list has the Given* When* Then* shape, with a When before any Then |
| `BddRun.Execute` | src/Playwright.XUnit/BDD/Scenario.cs:255-278 | a run that aborts does so at an index in range, on a step whose action threw that exception on that context |
| `BddRun.ExecuteRunsPrefix` | src/Playwright.XUnit/BDD/Scenario.cs:255-278 | when step k throws, steps 0..k-1 all completed in order and passed step k the context it threw on |
| `BddRun.ExecuteIgnoresLaterSteps` | src/Playwright.XUnit/BDD/Scenario.cs:261-277 | once step k throws, no later step runs: any steps after k give the same run |
| `BddRun.StepPrefix` | src/Playwright.XUnit/BDD/Scenario.cs:293-308 | the label is "  And" iff the previous step has the same type; otherwise a Given step reads "Given", a When step " When" and a Then step " Then"; it is "" only for a step without a phase; labels are 5 characters wide |
| `BddRun.WellOrderedStepsAreLabelled` | src/Playwright.XUnit/BDD/Scenario.cs:301-307 | for a well-ordered step list the empty label is never produced |
| `BddRun.FailureMessageNamesScenarioAndStep` | src/Playwright.XUnit/BDD/Scenario.cs:259-276 | the failure message contains the scenario's description and ends with the failing step's description |
| `BddRun.RunFailureWrapsCause` | src/Playwright.XUnit/BDD/Scenario.cs:255-278 | a run fails iff some step throws. The failure is an InvalidOperation whose inner exception is that step's exception and whose message names scenario and step. The steps before it completed |
| `BddRun.RunSuccessRunsAll` | src/Playwright.XUnit/BDD/Scenario.cs:255-281 | a run succeeds iff every step completes |
| `BddScenario.Scenario.constructor` | src/Playwright.XUnit/BDD/Scenario.cs:29-49 | a new scenario has no steps, both cursors None and an empty context, and satisfies the invariant |
| `BddScenario.Scenario.ValidateStepOrder` | src/Playwright.XUnit/BDD/Scenario.cs:51-82 | returns the ordering table's verdict; on success moves the phase to the new type, a None type moves nothing |
| `BddScenario.Scenario.Given` | src/Playwright.XUnit/BDD/Scenario.cs:90-120 | accepted iff the phase is None or Given. On success it appends exactly one Given step and sets both cursors to Given. On failure it throws "Given must come before When and Then steps" and changes nothing. The invariant is kept |
| `BddScenario.Scenario.When` | src/Playwright.XUnit/BDD/Scenario.cs:128-158 | rejected iff the phase is Then ("When cannot follow Then"). On success it appends one When step and sets both cursors to When. On failure nothing changes |
| `BddScenario.Scenario.Then` | src/Playwright.XUnit/BDD/Scenario.cs:166-196 | accepted iff the phase is When or Then, else "Then must follow When". On success it appends one Then step and sets both cursors to Then. On failure nothing changes |
| `BddScenario.Scenario.And` | src/Playwright.XUnit/BDD/Scenario.cs:205-242 | fails with "And must follow a Given, When, or Then step" iff lastStepType is None. Otherwise it appends one step of type lastStepType, which the runner labels "  And". Neither cursor changes |
| `BddScenario.Scenario.RunAsync` | src/Playwright.XUnit/BDD/Scenario.cs:248-291 | the result is the verdict of running the old steps from an empty context. On every exit the context and the steps are empty and both cursors are None |
| `BddExamples.OrderStepsLogInOrder` | src/Playwright.XUnit.Tests/BDD/ScenarioTests.cs:263-281 | the six steps of the ordering test log Given1, Given2, When, When2, Then, Then2 in that order |

## Left out

- Logging through `ITestOutputHelper` (the scenario header, each step's label, "Completed in …ms", "Failed", the success summary) is not modelled: the model treats the output as absent. With an output sink that throws, the code behaves differently. A throw from the per-step writes (src/Playwright.XUnit/BDD/Scenario.cs:263 and 269) is reported as a failure of that step, and at line 263 the step's action never runs. A throw from the header writes (lines 252-253) propagates unwrapped after cleanup.
- `Stopwatch` timing is not modelled. It is a clock, and only feeds the log.
- The `async`/`Task` machinery is not modelled. Each action runs to completion before the runner continues, which the model keeps.
- The optional `output` parameter of `Scenario.Create` is not modelled, because it only feeds the log.
- The builder methods return an `Outcome` instead of the scenario itself, so fluent chaining is not modelled. A thrown ordering error is `Fail`.
- Step actions are pure functions of the context. Side effects outside the context (the tests' captured local variables) are not modelled.
- An action that keeps a reference to the dictionary and changes it later is not modelled, because no such code exists in the model.
- When a step throws, the changes it made to the context before throwing are not kept. The `finally` block clears the context right away, so nobody can observe them.
- Null dictionary keys and null stored values are not modelled: keys are non-null strings.
- The texts of `KeyNotFoundException` and `InvalidCastException` are not modelled, only the exception kinds (and the missing key).
- Cancellation is not modelled: the engine has none.
- The rest of the repository is not part of this model:
  - browser and page providers, hooks, lifecycle manager, xUnit/Reqnroll fixtures;
  - `AngularServer`, `WebTestingHostManager`, `Bootstrap`, `WebServerFixture`;
  - `ApiActor` and the API contexts;
  - DI registration and configuration binding;
  - `PlaywrightHook.SanitizeFileName`;
  - the demo applications.

  They are process, network, file-system or library glue.
