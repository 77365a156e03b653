/** The budget of a closed-loop run: when "never spend more than the budget" is true, for every arm, and a
    run that spends more. */
module SpendingLimit {
  import opened Wrappers
  import opened RealSums
  import opened Rounding
  import opened Information
  import opened EvidenceEligibility
  import opened Reasoning
  import opened OptimizerEffect
  import opened BeliefModels
  import opened EvidenceOutcomes
  import opened OneStepPolicy
  import opened PredictionAdapter
  import opened ClosedLoop
  import opened ClosedLoopRuns
  import opened ClosedLoopSafety
  import opened ClosedLoopProgress
  import opened ClosedLoopTrace

  // ----- what has been spent -----

  /** Every experiment's candidate has a cost. */
  predicate Costed(costs: map<string, real>, completed: seq<CompletedExperiment>) {
    forall i :: 0 <= i < |completed| ==> completed[i].candidate.id in costs && costs[completed[i].candidate.id] >= 0.0
  }

  function GivenCosts(costs: map<string, real>, completed: seq<CompletedExperiment>): (r: seq<real>)
    requires Costed(costs, completed)
    ensures |r| == |completed|
  {
    seq(|completed|, i requires 0 <= i < |completed| => costs[completed[i].candidate.id])
  }

  /** Every experiment adds its cost to what was spent before it, and the sum is rounded. */
  lemma SpentRounds(costs: map<string, real>, completed: seq<CompletedExperiment>)
    requires Costed(costs, completed) && |completed| > 0
    ensures RoundsTo(RunningCost(costs, completed[..|completed| - 1]) + costs[completed[|completed| - 1].candidate.id],
                     RunningCost(costs, completed))
  {
    hide Round12;
    RoundsToIff(RunningCost(costs, completed[..|completed| - 1]) + costs[completed[|completed| - 1].candidate.id],
                RunningCost(costs, completed));
  }

  /** So what is spent is off the sum of the costs by at most half a unit for every experiment. */
  lemma {:induction false} SpentNearSum(costs: map<string, real>, completed: seq<CompletedExperiment>)
    requires Costed(costs, completed)
    ensures Size(RunningCost(costs, completed) - Sum(GivenCosts(costs, completed))) <= |completed| as real * (ROUNDING_UNIT / 2.0)
  {
    if |completed| > 0 {
      var n, cost := |completed| - 1, costs[completed[|completed| - 1].candidate.id];
      SpentNearSum(costs, completed[..n]);
      assert GivenCosts(costs, completed) == GivenCosts(costs, completed[..n]) + [cost];
      SumAppend(GivenCosts(costs, completed[..n]), cost);
      hide Round12, Sum;
      RoundNear(RunningCost(costs, completed[..n]) + cost);
      HalfMore(n, ROUNDING_UNIT / 2.0);
    }
  }

  lemma HalfMore(n: nat, half: real)
    ensures (n + 1) as real * half == n as real * half + half
  {
  }

  /** What any head has spent: the rounded total of its experiments' costs, each of which is given. */
  lemma HeadSpends(arm: Arm, log: OracleLog, n: nat)
    requires SoundArm(arm) && HeadAt(arm, Start(arm, log), n).Some?
    ensures var s := HeadAt(arm, Start(arm, log), n).value;
      && |s.completed| == n && Costed(arm.costs, s.completed)
      && Size(s.cumulativeCost - Sum(GivenCosts(arm.costs, s.completed))) <= n as real * (ROUNDING_UNIT / 2.0)
  {
    hide Next, Start, SoundArm, HeadAt, HeadInvariant, RunningCost, OptimizerState, Closers, EvidenceIds, Sum;
    EveryHead(arm, log, n);
    var s := HeadAt(arm, Start(arm, log), n).value;
    HeadCounts(arm, log, s);
    SpentNearSum(arm.costs, s.completed);
  }

  // ----- the budget -----

  /** Head `n` of the run, if the run gets that far, has spent at most the budget. */
  ghost predicate HeadWithin(arm: Arm, log: OracleLog, n: nat) {
    var s := HeadAt(arm, Start(arm, log), n);
    s.Some? ==> s.value.cumulativeCost <= arm.spec.budget
  }

  /** No sound arm with this budget ever spends more, against any oracle, at any point of its run. */
  ghost predicate NeverExceeded(budget: real) {
    forall arm, log, n: nat :: SoundArm(arm) && arm.spec.budget == budget ==> HeadWithin(arm, log, n)
  }

  /** The exact condition: a budget is never exceeded if and only if rounding it to twelve decimals does
      not raise it. */
  lemma NeverExceededIff(budget: real)
    requires budget > 0.0
    ensures NeverExceeded(budget) <==> Round12(budget) <= budget
  {
    hide Round12, SoundArm, HeadAt, Start, HeadInvariant;
    if Round12(budget) <= budget {
      forall arm, log, n: nat | SoundArm(arm) && arm.spec.budget == budget ensures HeadWithin(arm, log, n) {
        if HeadAt(arm, Start(arm, log), n).Some? {
          EveryHead(arm, log, n);
          CostWithinBudget(arm, log, HeadAt(arm, Start(arm, log), n).value);
        }
      }
    } else {
      var arm, log := WholeBudgetArm(budget), OracleLog([], {});
      WholeBudgetRun(budget);
      assert !HeadWithin(arm, log, 1);
    }
  }

  /** A whole number of rounding units is never exceeded. */
  lemma GridBudgetNeverExceeded(budget: real)
    requires budget > 0.0 && OnGrid(budget)
    ensures NeverExceeded(budget)
  {
    hide NeverExceeded;
    RoundFixesGrid(budget);
    NeverExceededIff(budget);
  }

  /** A budget of six tenths of a unit is exceeded by a run that returns. */
  lemma BudgetExceeded()
    ensures var budget := 0.0000000000006;
      var run := RunArm(WholeBudgetArm(budget), OracleLog([], {}));
      run.Ok? && run.value.state.cumulativeCost == 0.000000000001 > budget
  {
    hide RunArm, WholeBudgetArm;
    var budget := 0.0000000000006;
    assert NearestEven(budget * TWELVE_DIGITS) == 1;
    WholeBudgetRun(budget);
  }

  // ----- an arm that spends its whole budget on its only candidate -----

  function Marks(n: nat, mark: char): (r: string)
    ensures |r| == n
  {
    seq(n, i => mark)
  }

  /** Every integer as a natural number of its own. */
  function Folded(x: int): (r: nat)
  {
    if x >= 0 then 2 * x else -2 * x - 1
  }

  function TallyName(ids: (int, int)): string {
    Marks(Folded(ids.0), 'a') + Marks(Folded(ids.1), 'b')
  }

  lemma TallyInjective()
    ensures InjectiveName(TallyName)
  {
    forall x: (int, int), y: (int, int) | TallyName(x) == TallyName(y) ensures x == y {
      SameTally(Folded(x.0), Folded(x.1), Folded(y.0), Folded(y.1));
    }
  }

  lemma SameTally(m: nat, n: nat, k: nat, l: nat)
    requires Marks(m, 'a') + Marks(n, 'b') == Marks(k, 'a') + Marks(l, 'b')
    ensures m == k && n == l
  {
    if m < k {
      TallyDiffers(m, n, k, l);
    } else if k < m {
      TallyDiffers(k, l, m, n);
    }
    assert |Marks(m, 'a') + Marks(n, 'b')| == m + n && |Marks(k, 'a') + Marks(l, 'b')| == k + l;
  }

  lemma TallyDiffers(m: nat, n: nat, k: nat, l: nat)
    requires m < k
    ensures Marks(m, 'a') + Marks(n, 'b') != Marks(k, 'a') + Marks(l, 'b')
  {
    var s, t := Marks(m, 'a') + Marks(n, 'b'), Marks(k, 'a') + Marks(l, 'b');
    if n == 0 {
      assert |s| == m && |t| == k + l;
    } else {
      assert s[m] == 'b' && t[m] == 'a';
    }
  }

  const ONLY_CANDIDATE := Candidate("c", 0.1, 0.0, 1, ADAM)

  function WholeBudgetArm(budget: real): Arm {
    Arm(Spec("run", InformationGain, FixedSigma, budget, 0),
        [ONLY_CANDIDATE],
        map["c" := budget],
        Contract([Design("c", OPTIMIZER_EFFECT_FAMILY, "group", [], OPTIMIZER_INTERVENTION, ADAM)], key => "key"),
        [],
        map["c" := 1.0],
        Laws(GainLaws(x => 0.0, (x, mean, sigma) => 0.5),
             BeliefLaws((x, mean, sigma) => 1.0, (x, mean, sigma) => 0.5, effects => 0.0),
             TallyName))
  }

  lemma WholeBudgetSound(budget: real)
    requires budget > 0.0
    ensures SoundArm(WholeBudgetArm(budget))
  {
    TallyInjective();
  }

  lemma WholeBudgetReady(budget: real)
    requires budget > 0.0
    ensures ReadyArm(WholeBudgetArm(budget), OracleLog([], {}))
  {
    hide SoundArm;
    WholeBudgetSound(budget);
    var arm := WholeBudgetArm(budget);
    assert arm.contract.designs[0].IsOptimizerEffect();
    assert "run"[0] == 'r';
  }

  lemma WholeBudgetRun(budget: real)
    requires budget > 0.0
    ensures var arm, log := WholeBudgetArm(budget), OracleLog([], {});
      && SoundArm(arm) && arm.spec.budget == budget
      && RunArm(arm, log).Ok? && RunArm(arm, log).value.state.cumulativeCost == Round12(budget)
      && HeadAt(arm, Start(arm, log), 1) == Some(RunArm(arm, log).value.state)
  {
    hide RunFrom, Round12, SoundArm, ReadyArm, HeadAt;
    var arm, log := WholeBudgetArm(budget), OracleLog([], {});
    WholeBudgetSound(budget);
    WholeBudgetReady(budget);
    FullBudgetRun(arm, log, ONLY_CANDIDATE);
    RunFailsOnlyInLoop(arm, log);
  }
}
