/**
 * Steps of a BDD scenario and the Given -> When -> Then ordering rules that
 * the scenario builder enforces when a step is added.
 */
module BddSteps {
  import Wrappers
  import opened Exceptions

  /** The phase of a step; None marks "no step added yet". */
  datatype StepType = None | Given | When | Then

  /** What a step's action does: it completes, leaving the shared context as given, or throws. */
  datatype StepResult<V> = Done(context: map<string, V>) | Threw(error: Exception)

  /** A step's action over the shared context (the sync and async forms are one here). */
  type Action<!V> = map<string, V> -> StepResult<V>

  /** StepInfo: a step's type, its description and its action. */
  datatype Step<!V> = Step(kind: StepType, description: string, action: Action<V>)

  /** The order of the phases: Given before When before Then. */
  function Rank(t: StepType): nat
  {
    match t
    case None => 0
    case Given => 1
    case When => 2
    case Then => 3
  }

  /** The types of a list of steps, in order. */
  function Kinds<V>(steps: seq<Step<V>>): (r: seq<StepType>)
    ensures |r| == |steps|
    ensures forall i :: 0 <= i < |steps| ==> r[i] == steps[i].kind
  {
    seq(|steps|, i requires 0 <= i < |steps| => steps[i].kind)
  }

  lemma KindsAppend<V>(steps: seq<Step<V>>, step: Step<V>)
    ensures Kinds(steps + [step]) == Kinds(steps) + [step.kind]
  {
  }

  /** The phase reached by a list of step types: that of its last step, or None. */
  function PhaseOf(kinds: seq<StepType>): StepType
  {
    if kinds == [] then None else kinds[|kinds| - 1]
  }

  /**
   * A well-ordered step list: every step has a phase, phases never go back,
   * and every Then step has a When step somewhere before it.
   */
  predicate WellOrdered(kinds: seq<StepType>)
  {
    && (forall i :: 0 <= i < |kinds| ==> kinds[i] != None)
    && (forall i, j :: 0 <= i < j < |kinds| ==> Rank(kinds[i]) <= Rank(kinds[j]))
    && (forall j :: 0 <= j < |kinds| && kinds[j] == Then ==> exists i :: 0 <= i < j && kinds[i] == When)
  }

  /** In a well-ordered list the phase is None exactly when there are no steps. */
  lemma PhaseNoneIffEmpty(kinds: seq<StepType>)
    requires WellOrdered(kinds)
    ensures PhaseOf(kinds) == None <==> kinds == []
  {
  }

  const GivenOrderMessage := "Given must come before When and Then steps"
  const WhenOrderMessage := "When cannot follow Then"
  const ThenOrderMessage := "Then must follow When"
  const AndOrderMessage := "And must follow a Given, When, or Then step"

  function OrderingError(message: string): Exception
  {
    InvalidOperation(message, Wrappers.None)
  }

  /**
   * The check ValidateStepOrder makes before a step of type `next` is added
   * while the scenario is in phase `phase`: a step may not go back to an
   * earlier phase, and a Then step needs the phase to have reached When.
   */
  function CheckOrder(phase: StepType, next: StepType): (r: Outcome)
    ensures r.Pass? <==> next == None || (Rank(phase) <= Rank(next) && (next == Then ==> Rank(phase) >= Rank(When)))
    ensures next == Given && r.Fail? ==> r.error == OrderingError(GivenOrderMessage)
    ensures next == When && r.Fail? ==> r.error == OrderingError(WhenOrderMessage)
    ensures next == Then && r.Fail? ==> r.error == OrderingError(ThenOrderMessage)
  {
    match next
    case Given =>
      if phase != None && phase != Given then Fail(OrderingError(GivenOrderMessage)) else Pass
    case When =>
      if phase != None && phase != Given && phase != When then Fail(OrderingError(WhenOrderMessage)) else Pass
    case Then =>
      if phase != When && phase != Then then Fail(OrderingError(ThenOrderMessage)) else Pass
    case None =>
      Pass
  }

  /** Every step of a well-ordered list is at or below the phase of its last step. */
  lemma RankBelowPhase(kinds: seq<StepType>, i: nat)
    requires WellOrdered(kinds) && i < |kinds|
    ensures Rank(kinds[i]) <= Rank(PhaseOf(kinds))
  {
  }

  /**
   * The ordering check accepts a Given, When or Then step exactly when the
   * step list extended with it is still well ordered.
   */
  lemma {:induction false} CheckOrderKeepsWellOrdered(kinds: seq<StepType>, next: StepType)
    requires WellOrdered(kinds) && next != None
    ensures CheckOrder(PhaseOf(kinds), next).Pass? <==> WellOrdered(kinds + [next])
  {
    var ext := kinds + [next];
    var n := |kinds|;
    if CheckOrder(PhaseOf(kinds), next).Pass? {
      forall i | 0 <= i < n ensures Rank(ext[i]) <= Rank(next) {
        RankBelowPhase(kinds, i);
      }
      forall j | 0 <= j < |ext| && ext[j] == Then ensures exists i :: 0 <= i < j && ext[i] == When {
        if j == n {
          if PhaseOf(kinds) == When {
            assert ext[n - 1] == When;
          } else {
            assert kinds[n - 1] == Then;
            var i :| 0 <= i < n - 1 && kinds[i] == When;
            assert ext[i] == When;
          }
        } else {
          assert kinds[j] == Then;
          var i :| 0 <= i < j && kinds[i] == When;
          assert ext[i] == When;
        }
      }
    } else if next != Then || Rank(PhaseOf(kinds)) > Rank(When) {
      assert Rank(ext[n - 1]) > Rank(ext[n]);
    } else {
      // a Then step with no When before it
      forall i | 0 <= i < n ensures ext[i] != When {
        RankBelowPhase(kinds, i);
      }
      assert ext[n] == Then && !(exists i :: 0 <= i < n && ext[i] == When);
    }
  }

  /** An And step repeats the last phase, which keeps the list well ordered. */
  lemma AndKeepsWellOrdered(kinds: seq<StepType>)
    requires WellOrdered(kinds) && kinds != []
    ensures WellOrdered(kinds + [PhaseOf(kinds)])
  {
    var ext := kinds + [PhaseOf(kinds)];
    var n := |kinds|;
    forall i | 0 <= i < n ensures Rank(ext[i]) <= Rank(ext[n]) {
      RankBelowPhase(kinds, i);
    }
    forall j | 0 <= j < |ext| && ext[j] == Then ensures exists i :: 0 <= i < j && ext[i] == When {
      var j' := if j == n then n - 1 else j;
      assert kinds[j'] == Then;
      var i :| 0 <= i < j' && kinds[i] == When;
      assert ext[i] == When;
    }
  }

  /**
   * The Gherkin shape: `g` Given steps, then When steps up to index `w`,
   * then Then steps to the end, with at least one When if there is a Then.
   */
  predicate GherkinSplit(kinds: seq<StepType>, g: nat, w: nat)
  {
    && g <= w <= |kinds|
    && (forall i :: 0 <= i < |kinds| ==> kinds[i] == (if i < g then Given else if i < w then When else Then))
    && (w < |kinds| ==> g < w)
  }

  /** Every list of the Gherkin shape is well ordered. */
  lemma GherkinSplitIsWellOrdered(kinds: seq<StepType>, g: nat, w: nat)
    requires GherkinSplit(kinds, g, w)
    ensures WellOrdered(kinds)
  {
    forall j | 0 <= j < |kinds| && kinds[j] == Then ensures exists i :: 0 <= i < j && kinds[i] == When {
      assert kinds[w - 1] == When;
    }
  }

  /**
   * A list of the Gherkin shape is accepted by the ordering check one step
   * at a time: each step passes against the phase its predecessors reached.
   */
  lemma GherkinAcceptedStepByStep(kinds: seq<StepType>, g: nat, w: nat, k: nat)
    requires GherkinSplit(kinds, g, w) && k < |kinds|
    ensures CheckOrder(PhaseOf(kinds[..k]), kinds[k]).Pass?
  {
    GherkinSplitIsWellOrdered(kinds[..k + 1], if g <= k + 1 then g else k + 1, if w <= k + 1 then w else k + 1);
    GherkinSplitIsWellOrdered(kinds[..k], if g <= k then g else k, if w <= k then w else k);
    assert kinds[..k + 1] == kinds[..k] + [kinds[k]];
    CheckOrderKeepsWellOrdered(kinds[..k], kinds[k]);
  }

  /** The first index whose phase is at least `rank`, or |kinds| if none is. */
  function FirstAtRank(kinds: seq<StepType>, rank: nat): (k: nat)
    ensures k <= |kinds|
    ensures forall i :: 0 <= i < k ==> Rank(kinds[i]) < rank
    ensures k < |kinds| ==> Rank(kinds[k]) >= rank
  {
    if kinds == [] then 0
    else if Rank(kinds[0]) >= rank then 0
    else 1 + FirstAtRank(kinds[1..], rank)
  }

  /** Every well-ordered list has the Gherkin shape. */
  lemma WellOrderedHasGherkinSplit(kinds: seq<StepType>) returns (g: nat, w: nat)
    requires WellOrdered(kinds)
    ensures GherkinSplit(kinds, g, w)
  {
    g := FirstAtRank(kinds, Rank(When));
    w := FirstAtRank(kinds, Rank(Then));
    forall i | 0 <= i < |kinds|
      ensures kinds[i] == (if i < g then Given else if i < w then When else Then)
    {
      if g < |kinds| && g <= i {
        assert Rank(kinds[g]) <= Rank(kinds[i]) || g == i;
      }
      if w < |kinds| && w <= i {
        assert Rank(kinds[w]) <= Rank(kinds[i]) || w == i;
      }
    }
    if w < |kinds| {
      assert kinds[w] == Then;
      var i :| 0 <= i < w && kinds[i] == When;
    }
  }
}
