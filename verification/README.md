# Research decision engine: a verified model

This project models the sequential decision engine of the repository and proves what its
parts promise together.

* **Finite-table information gain.** Integer belief weights are multiplied by declared
  likelihoods, reduced by their greatest common divisor, replayed from a history, and scored;
  the first strict maximum is selected (`GcdReduction`, `InformationGainTable`, `TablePolicy`,
  `TableMeaning`).
* **Run bundles, version 3.** Building, validating, replaying and rebuilding a recorded run are
  four loops over one run specification with three policies; they are proved to agree
  (`RunSpecs`, `GenericPolicies`, `RunBundleV3`, `RunBundleAgreement`, `RunBundleCapture`,
  `RunBundleDecisions`).
* **The closed belief loop.** Matched optimizer evidence, Bayes updates, sigma selection,
  discretised outcomes, the one-step and two-step planners, the group adapter in front of them,
  the loop that runs one arm against a selected-only oracle, and the calibration prefix that
  seeds it (`EvidenceEligibility`, `Reasoning`, `OptimizerEffect`, `EvidenceMeaning`,
  `BeliefModels`, `SigmaMeaning`, `PredictiveMeaning`, `EvidenceOutcomes`, `PlannedGain`,
  `OneStepPolicy`, `LookaheadPolicy`, `PredictionAdapter`, `AdapterRefinement`, `LookaheadMeaning`,
  `PlanningGuards`, `ClosedLoop`, `ClosedLoopRuns`, `ClosedLoopSafety`, `ClosedLoopProgress`,
  `ClosedLoopTrace`, `ClosedLoopDecisions`, `ClosedLoopBeliefs`, `SpendingLimit`, `ToleranceTies`,
  `Calibration`, `CalibrationMeaning`, `CalibrationBuild`, `CalibratedRuns`).

`Wrappers`, `RealSums`, `Ordering`, `Rounding`, `Information` and `BayesMeaning` hold what several
of these share: option and result types, finite sums, Python's stable sort, `round(x, 12)`, entropy,
Bayes' rule and mutual information.

How the source is rendered:

* Floats are exact `real`s. Entropy is the sum of an arbitrary kernel that is concave and
  non-negative on [0, 1] and zero at both ends; `-x log2 x` is one. The Gaussian distribution
  function is any monotone function into [0, 1], the density any positive function, the sample
  standard deviation any function. They are parameters, and the theorems state what they need.
* A raised exception is an `Err` of the module's error type; the order of the checks is the
  source's. Loops that update variables are methods, proved equal to a specification function;
  the theorems are about those functions. Objects that mutate (`SelectedOnlyObservationOracle`,
  `CalibrationReplicationContract`, the stores) are classes.
* Digests and stable identifiers are structural values or injective functions.
* A method that repeats a loop of the source is proved equal to its specification function; its
  row below names the lemmas that say what that function computes. The modules named for a meaning
  state it without those functions: in declared weights, observed values, completed experiments
  and costs.

Where a promise does not hold as it stands, the exact condition is proved beside a concrete
failure: the two-step ratio component never decides (`RatioNeverDecides`); a one-step ranking
reason can be wrong for gains closer than 1e-12 (`ReasonExactIff`, `AdaptedReasonExactIff`,
`LowerGainSaidLater`); a late synchronisation
misses evidence after a second completion in one arm (`IncrementalEqualsBatchIff`); a rejected
`consume` extends the consumed sets when two arms share one identifier
(`RejectedConsumeUnchangedIff`); the rounded cumulative cost exceeds some budgets, exactly those
that rounding raises (`NeverExceededIff`, `BudgetExceeded`); a run can fail inside its planner for
a cost inside the loop's slack, and in its adapter when calibration effects share an identifier
with each other or with evidence (`StepFailsIffStuck`, `SourcesRepeatIff`); an update uses the
sigma its planner saw only without such a shared identifier (`PlannedSigmaIsUsed`); the two-step
adapter and the base policy can report different errors (`TwoStepErrorsDiffer`), exactly when the
guards do not meet the cost error the base policy reports first (`TwoStepAgreeIff`,
`RegisteredTwoStepAgreeIff`); two comparison
keys of one comparison group cannot be calibrated together (`BuildExact`).

Verify with `dafny verify dfyconfig.toml`.

## Model

| member | source | states |
|---|---|---|
| InformationGainTable.ClassifyObservation | research_decision_engine/information_gain_table.py:321-347 | Returns the outcome index whose half-open threshold cell holds the value, as ClassificationPartition characterises it. |
| InformationGainTable.ClassificationPartition | research_decision_engine/information_gain_table.py:321-347 | An observation is classified as outcome o if and only if it lies in the half-open cell between the thresholds around o; every value has a cell. |
| InformationGainTable.UpdateInformationGainBelief | research_decision_engine/information_gain_table.py:718-748 | Computes the update that UpdateMultiplies gives in the declared weights, and fails as UpdateSucceedsIff says. |
| TableMeaning.OutcomeIsCell | research_decision_engine/information_gain_table.py:321-347 | The outcome used for a record is the one whose declared cell, from the threshold before it up to the one after it, holds the observation. |
| TableMeaning.UpdateMultiplies | research_decision_engine/information_gain_table.py:718-748 | A successful update with new weights v has some k > 0 such that k times v[h] is the old weight times the weight hypothesis h declares for the observed outcome, for every h; and no number above 1 divides all of v. |
| TableMeaning.UpdateSucceedsIff | research_decision_engine/information_gain_table.py:718-748 | An update fails exactly for weights that are no belief, an unknown candidate, a product of 2 to the bit bound or more, or an outcome that every hypothesis with weight declares impossible, in that order of precedence. |
| TableMeaning.UpdateIsPosterior | research_decision_engine/information_gain_table.py:718-815 | The updated weights, as probabilities, are the posterior the scorer weighs for the same outcome: the update and the score use one Bayes rule. |
| InformationGainTable.BoundedProducts | research_decision_engine/information_gain_table.py:728-739 | Returns all products if none exceeds the bit bound and nothing otherwise; BoundOnlyRejects says what that means for a history. |
| InformationGainTable.CommonDivisor | research_decision_engine/information_gain_table.py:740-748 | Computes the divisor that GcdAllGreatest, GcdAllDivides and ReducedGcd show to be the greatest common divisor. |
| GcdReduction.GcdAllGreatest | research_decision_engine/information_gain_table.py:740-748 | Every number that divides all weights divides the folded gcd. |
| GcdReduction.GcdAllDivides | research_decision_engine/information_gain_table.py:740-748 | The folded gcd divides every weight and is zero only for all-zero weights. |
| GcdReduction.ReducedGcd | research_decision_engine/information_gain_table.py:740-748 | Weights divided by their common divisor have greatest common divisor 1. |
| GcdReduction.ReduceTimes | research_decision_engine/information_gain_table.py:740-748 | Proportional weights reduce to the same weights. |
| InformationGainTable.ReducedWithin | research_decision_engine/information_gain_table.py:734-748 | Reduction never pushes a weight over the bit bound. |
| TablePolicy.ReplayHistory | research_decision_engine/information_gain_table.py:672-696 | Computes the replayed belief whose value, order-independence and failures ReplayNormalForm, ReplayOrderIndependent and ReplaySucceedsIff give. |
| TablePolicy.ReplayShape | research_decision_engine/information_gain_table.py:672-709 | A history that replays names each candidate once and only records of this specification, and the replayed completed set is theirs. |
| TablePolicy.ReplayNormalForm | research_decision_engine/information_gain_table.py:672-696 | For a non-empty accepted history the weights are the reduced componentwise product of the priors and every observed likelihood, and their divisor is 1; ReplayMultiplies says it in the declared weights. |
| TableMeaning.ReplayMultiplies | research_decision_engine/information_gain_table.py:672-748 | For some k > 0, k times the replayed weight of every hypothesis is its prior times the product of the weights it declares for the cells the observations fall in; after the first record nothing above 1 divides all weights. |
| TableMeaning.ReplaysIffPossible | research_decision_engine/information_gain_table.py:672-748 | Without the bit bound a consistent history replays if and only if some hypothesis declares a positive weight for every observation; otherwise the evidence is impossible. |
| TablePolicy.ReplayOrderIndependent | research_decision_engine/information_gain_table.py:672-696 | Any two orders of the same records that both replay reach the same belief and completed set. |
| TablePolicy.ReplaySucceedsIff | research_decision_engine/information_gain_table.py:718-748 | Without the bit bound a consistent history replays if and only if its total product is not all zero; otherwise the error is impossible evidence. |
| TablePolicy.ImpossibleForOneOrderIffAll | research_decision_engine/information_gain_table.py:718-748 | Without the bit bound impossible evidence is raised for one order of a history if and only if it is raised for every order. |
| TablePolicy.BoundOnlyRejects | research_decision_engine/information_gain_table.py:734-739 | The bit bound only turns accepted histories into rejected ones: whatever passes it is replayed as without it. |
| TablePolicy.ReplayedWeightsValid | research_decision_engine/information_gain_table.py:937-956 | Every replayed belief, the raw priors included, passes the checks that scoring makes of a belief. |
| InformationGainTable.ExpectedInformationGainBits | research_decision_engine/information_gain_table.py:771-831 | Computes the quantised score that GainBounds, SharedRowScoresZero and ScoreScaleFree characterise, with its belief, candidate and negative-score errors. |
| InformationGainTable.ExpectedOverOutcomes | research_decision_engine/information_gain_table.py:796-815 | Accumulates the expected posterior entropy that PosteriorsAverageBack and InformationBounds are about, skipping impossible outcomes. |
| InformationGainTable.MassesStochastic | research_decision_engine/information_gain_table.py:278-284 | Each declared likelihood row over the row total is a distribution over the outcomes. |
| InformationGainTable.GainBounds | research_decision_engine/information_gain_table.py:771-825 | The exact gain lies between zero and the current entropy, so a known candidate always scores and the negative-score error never fires. |
| TableMeaning.ScoreIsMutualInformation | research_decision_engine/information_gain_table.py:771-825 | The score before quantisation is the mutual information of belief and outcome, for whatever probabilities, rates and Bayes table fit the weights and the declared rows. |
| InformationGainTable.SharedRowScoresZero | research_decision_engine/information_gain_table.py:771-825 | A candidate whose hypotheses share one likelihood row scores zero under every belief. |
| InformationGainTable.ScoreScaleFree | research_decision_engine/information_gain_table.py:771-825 | Scaling all belief weights leaves every score unchanged. |
| Information.PosteriorsAverageBack | research_decision_engine/information_gain_table.py:796-815 | Weighted by their outcome probabilities the posteriors average back to the current belief. |
| Information.InformationBounds | research_decision_engine/information_gain_table.py:771-825 | For every concave entropy kernel the expected posterior entropy lies between zero and the current entropy. |
| BayesMeaning.BayesAtIsPosterior | research_decision_engine/information_gain_table.py:796-815 | A chance and a belief that satisfy Bayes' rule for an outcome are the predictive probability and, if it is positive, the posterior computed. |
| BayesMeaning.GainIsMutualInformation | research_decision_engine/information_gain_table.py:771-825 | Entropy less expected posterior entropy is the mutual information of every table of chances and beliefs that satisfies Bayes' rule. |
| TablePolicy.SelectCandidate | research_decision_engine/information_gain_table.py:596-630 | Makes the selection that SelectionIsFirstMaximum identifies as the first open candidate of greatest gain, or reports the first error. |
| TablePolicy.BestOfEligible | research_decision_engine/information_gain_table.py:606-619 | Keeps the running maximum that FirstStrictMaximum identifies, or stops at the first scoring error. |
| TablePolicy.FirstStrictMaximum | research_decision_engine/information_gain_table.py:606-619 | The loop keeps a score no candidate exceeds and every earlier candidate is strictly below. |
| TablePolicy.SelectionIsFirstMaximum | research_decision_engine/information_gain_table.py:596-630 | After any accepted history selection fails only when nothing is open, and otherwise returns the first open candidate of greatest gain. |
| TablePolicy.SelectionScaleFree | research_decision_engine/information_gain_table.py:596-619 | Multiplying every weight by a positive factor leaves the selection and its score unchanged. |
| TablePolicy.ReductionKeepsSelection | research_decision_engine/information_gain_table.py:740-748 | The reduced weights select what the unreduced products would have selected. |
| TablePolicy.LineageIsReplay | research_decision_engine/information_gain_table.py:637-670 | The weights before and after an observation are the replayed beliefs of the shorter and the longer history. |
| GenericPolicies.SelectWithEligibleCount | research_decision_engine/generic_policies.py:92-141 | Rejects foreign completions and otherwise makes the choice that ScanIsFirstBest identifies, with the number of eligible candidates. |
| GenericPolicies.ScanCandidates | research_decision_engine/generic_policies.py:121-141 | Scans to the choice that ScanIsFirstBest identifies, whatever has been completed. |
| GenericPolicies.SelectFromEligible | research_decision_engine/run_bundle_v3.py:572-586 | The factory's own loop: GreedyLoopsAgree shows that it chooses as the policy class does. |
| GenericPolicies.GreedyLoopsAgree | research_decision_engine/run_bundle_v3.py:558-600 | For every completed set the policy class and the bundle factory choose the same candidate. |
| GenericPolicies.ScanIsFirstBest | research_decision_engine/generic_policies.py:121-141 | The choice is the first candidate of greatest utility. |
| GenericPolicies.GreedyVisitsStableOrder | research_decision_engine/generic_policies.py:110-141 | The k-th greedy choice is the k-th candidate in stable descending utility order, ties in specification order. |
| RunBundleV3.MakeStep | research_decision_engine/run_bundle_v3.py:247-354 | A step record is built only for the selected candidate, with a non-negative cost no larger than the cumulative cost, and then holds its input. |
| RunBundleV3.RebuildSteps | research_decision_engine/run_bundle_v3.py:1320-1336 | Rebuilds the steps that CapturedRunAddsUp describes and EveryStepFollowsPolicy explains, failing as CaptureSucceedsIff says. |
| RunBundleV3.ValidateRecordedSteps | research_decision_engine/run_bundle_v3.py:1205-1216 | Accepts exactly the step lists that CapturedRunIsAccepted and AcceptedRunIsCaptured identify, with the history it reconstructs; AcceptedBundleAddsUp gives their observations and costs. |
| RunBundleV3.ReplayRecordedSteps | research_decision_engine/run_bundle_v3.py:942-988 | Replays as AcceptedBundleReplays describes, and the store then holds exactly the reconstructed history. |
| RunBundleV3.ExperimentStore.AddWorkloadExperiment | research_decision_engine/run_bundle_v3.py:960-975 | Storing a completion appends it and returns it unchanged. |
| RunBundleV3.CompareSelection | research_decision_engine/run_bundle_v3.py:1290-1308 | A recorded step passes exactly when candidate, decision payload and rationale all equal the recomputed selection. |
| RunBundleV3.CompareRebuilt | research_decision_engine/run_bundle_v3.py:1311-1317 | A rebuilt step passes exactly when it equals the recorded one. |
| RunBundleAgreement.RetimedStep | research_decision_engine/run_bundle_v3.py:686-734 | Capturing a completion does not depend on any timestamp. |
| RunBundleAgreement.AcceptedStepIsCaptured | research_decision_engine/run_bundle_v3.py:1239-1287 | A step the validator accepts is what capturing its own observation would produce. |
| RunBundleAgreement.CapturedStepIsAccepted | research_decision_engine/run_bundle_v3.py:1239-1287 | A captured step is accepted by the validator and by the replay at the same place. |
| RunBundleAgreement.CapturedRunIsAccepted | research_decision_engine/run_bundle_v3.py:1202-1237 | Every run captured step by step is accepted by the validator and replays without a mismatch, rebuilding its history up to timestamps. |
| RunBundleAgreement.AcceptedRunIsCaptured | research_decision_engine/run_bundle_v3.py:1202-1237 | Conversely every accepted step list is exactly what capturing its rebuilt history produces. |
| RunBundleAgreement.AcceptedIffRecordsRun | research_decision_engine/run_bundle_v3.py:1165-1237 | A bundle validates if and only if its digests bind and some history of completions captures precisely its steps and summary within the budgets. |
| RunBundleAgreement.AcceptedBundleReplays | research_decision_engine/run_bundle_v3.py:942-1000 | Replaying an accepted bundle meets no mismatch and the steps rebuilt from the replayed history are the recorded ones. |
| RunBundleAgreement.CapturedRunExports | research_decision_engine/run_bundle_v3.py:1125-1162 | A captured run exports if and only if it is within the experiment budget and its stop reason holds; the bundle then replays to it. |
| RunBundleAgreement.BundlesDeterminedByInputs | research_decision_engine/run_bundle_v3.py:1239-1308 | Two accepted bundles with equal specification, observations, stop reason and producer are equal, for all three policies. |
| RunBundleCapture.StepsPartitionCandidates | research_decision_engine/run_bundle_v3.py:1239-1287 | At every accepted step, under every policy, the listed completed candidates are those selected so far; they and the eligible ones partition the specification's; the cumulative cost is the sum of the costs up to it, and the sum before it is below the cost budget and the sum after it at most at it. |
| RunBundleCapture.CapturedRunAddsUp | research_decision_engine/run_bundle_v3.py:686-734 | Step i of a captured run has index i, the candidate and observation of completion i, a non-negative cost, and as cumulative cost the sum of the costs of completions 0 to i; with a budget every proper prefix sum is below it and the whole sum at most at it. |
| RunBundleCapture.AcceptedBundleAddsUp | research_decision_engine/run_bundle_v3.py:1165-1237 | The same of an accepted bundle, whose summary counts and lists its steps, has the sum of all costs as total, and gives a stop reason that is true of steps and sum. |
| RunBundleCapture.CaptureSucceedsIff | research_decision_engine/run_bundle_v3.py:686-734 | A history is captured if and only if its costs fit the budget and every completion belongs to the run, has a cost, is what the policy selects after those before it, and, for the table policy, still replays; no check of a record constructor ever decides. |
| RunBundleCapture.CapturedOnce | research_decision_engine/run_bundle_v3.py:686-734 | A captured history completes every candidate at most once. |
| RunBundleCapture.FinalBeliefMeaning | research_decision_engine/run_bundle_v3.py:1496-1534 | The final belief of an accepted bundle is what its whole history replays to, and absent for the policies without a table. |
| RunBundleCapture.ExportsIff | research_decision_engine/run_bundle_v3.py:1125-1162 | A captured run is exported if and only if it has at most the budgeted number of steps and its stop reason is true of their number and of the sum of their costs. |
| RunBundleDecisions.SelectionFollowsPolicy | research_decision_engine/run_bundle_v3.py:521-657 | The random policy takes the open candidate its seed picks, the greedy policy the first of greatest utility, the table policy the first of greatest gain under the replayed belief; decision and rationale record that choice, the open candidates and the completions. |
| RunBundleDecisions.EveryStepFollowsPolicy | research_decision_engine/run_bundle_v3.py:686-734 | So does every step of a captured run, among the candidates without a completion at that step, each once and in specification order. |
| RunBundleDecisions.SelectionSucceedsIff | research_decision_engine/run_bundle_v3.py:521-668 | A policy selects if and only if some candidate has no completion and, for the table policy, the history replays. |
| RunBundleAgreement.LineageChain | research_decision_engine/run_bundle_v3.py:603-647 | The lineage starts at the priors, each step's weights after are the next step's weights before, and each link goes from the replayed belief of the reconstructed history before it to that of the history with it. |
| RunBundleAgreement.GreedyRunIsStableSort | research_decision_engine/run_bundle_v3.py:558-600 | A captured greedy run visits the candidates in stable descending utility order. |
| EvidenceEligibility.ScanPairs | research_decision_engine/evidence_eligibility.py:235-269 | Returns, in sorted key order, exactly the pairs that ScanFindsExactlyThePairs characterises. |
| EvidenceEligibility.GroupByKey | research_decision_engine/evidence_eligibility.py:242-251 | The dictionary holds every key once, in insertion order, each with its experiments in order. |
| EvidenceEligibility.ScanFindsExactlyThePairs | research_decision_engine/evidence_eligibility.py:235-269 | The scan returns exactly the unapplied pairs of comparisons with one experiment in each arm. |
| EvidenceMeaning.PairIsTheTwo | research_decision_engine/evidence_eligibility.py:235-269 | A comparison has a pair if and only if each of its two arms has exactly one completion, and the pair is those two. |
| EvidenceMeaning.ScanInKeyOrder | research_decision_engine/evidence_eligibility.py:235-269 | The scan lists its pairs in the order their comparison keys sort, no comparison twice. |
| EvidenceEligibility.AssessmentPredictsPair | research_decision_engine/evidence_eligibility.py:146-233 | Each of the seven effects says what a completion will do to the pair of its own comparison. |
| EvidenceEligibility.CompletesPairIffPairAppears | research_decision_engine/evidence_eligibility.py:146-233 | The assessment says completes_pair if and only if the completion turns a missing pair into a valid one. |
| EvidenceEligibility.AssessmentPredictsScan | research_decision_engine/evidence_eligibility.py:146-269 | With everything valid applied, the scan after an admissible completion returns exactly the predicted pair, or nothing, and applying it restores that condition. |
| Reasoning.UpdateBelief | research_decision_engine/reasoning.py:355-413 | Computes the posterior that UpdateKeepsState states and makes the rejections that UpdateSucceedsIff characterises. |
| Reasoning.UpdateKeepsState | research_decision_engine/reasoning.py:205-236 | An update keeps the state invariants and the prior, appends exactly its evidence, and normalises posterior times likelihood. |
| Reasoning.UpdateSucceedsIff | research_decision_engine/reasoning.py:355-392 | With positive densities an update is rejected exactly for foreign hypotheses or repeated evidence. |
| EvidenceMeaning.UpdateIsBayes | research_decision_engine/reasoning.py:376-413 | The new probability of a hypothesis times the normalization is its old one times the density of the observation under its own mean and sigma, and the normalization is the sum of all such products and positive. |
| Reasoning.JointReordered | research_decision_engine/reasoning.py:376-397 | The joint weights of several pieces of evidence do not depend on their order. |
| OptimizerEffect.InitialStateValid | research_decision_engine/optimizer_effect.py:37-87 | The three hypotheses start from a valid uniform state. |
| OptimizerEffect.HypothesesOrdered | research_decision_engine/optimizer_effect.py:37-72 | The three hypotheses are listed in identifier order, with any sigma. |
| OptimizerEffect.ReasoningStore.SynchronizeReasoning | research_decision_engine/optimizer_effect.py:90-127 | Changes the stored evidence and belief as SynchronizeApplies and SynchronizedStore state, and leaves the experiments alone. |
| OptimizerEffect.SynchronizeApplies | research_decision_engine/optimizer_effect.py:90-127 | Synchronising never fails, leaves the exact posterior of the stored evidence, and applies exactly the valid pairs in addition to what was applied; SynchronizedStore says what evidence and belief that is. |
| EvidenceMeaning.EvidenceCompares | research_decision_engine/optimizer_effect.py:139-195 | The comparison of a pair is Adam's observation less SGD's rounded to the nearest multiple of 1e-12, with Adam's sign; the outcome is adam-win exactly above 0.01, sgd-win exactly below -0.01 and a tie otherwise; the sources are the two records, smaller first. |
| EvidenceMeaning.MirroredPair | research_decision_engine/optimizer_effect.py:158-164 | Exchanging the observations of the two arms negates the comparison and exchanges the winners. |
| EvidenceMeaning.EvidenceDetermined | research_decision_engine/optimizer_effect.py:139-195 | Evidence is of a matched comparison in the completed experiments if and only if it is what the engine makes of the comparison's pair. |
| EvidenceMeaning.BeliefFollowsEvidence | research_decision_engine/optimizer_effect.py:37-72 | For a density that never rises with the distance from its mean, evidence in favour of Adam never lowers the odds of adam-advantage against sgd-advantage, nor evidence in favour of SGD the converse odds. |
| EvidenceMeaning.OddsRiseExactly | research_decision_engine/optimizer_effect.py:37-72 | For a density that falls strictly, the odds of adam-advantage against sgd-advantage rise exactly on a positive comparison, those of adam-advantage against no advantage exactly above 0.05, and those of no advantage against sgd-advantage exactly above -0.05. |
| EvidenceMeaning.PairMovesStore | research_decision_engine/optimizer_effect.py:90-127 | Applying a pair to a store moves its odds of adam-advantage against sgd-advantage towards the arm that is ahead, or not at all. |
| EvidenceMeaning.PairMovesModel | research_decision_engine/belief_models.py:434-511 | So does every update of either belief model, under the sigma it has chosen. |
| EvidenceMeaning.SynchronizedStore | research_decision_engine/optimizer_effect.py:90-127 | One synchronisation of a fresh store holds exactly the evidence of the matched comparisons, each once, and a belief in proportion to the products of the densities of all comparisons under the means 0.10, 0 and -0.10. |
| OptimizerEffect.SynchronizeIdempotent | research_decision_engine/optimizer_effect.py:90-127 | A second synchronisation changes nothing. |
| OptimizerEffect.IncrementalEqualsBatch | research_decision_engine/optimizer_effect.py:90-127 | While no pair is spoilt, synchronising after every experiment and once at the end reach the same evidence and the same exact posterior. |
| OptimizerEffect.IncrementalEqualsBatchIff | research_decision_engine/optimizer_effect.py:90-127 | The two ways agree on the evidence if and only if no valid pair is ever spoilt by a later completion. |
| OptimizerEffect.OnePerArmNeverVanishes | research_decision_engine/evidence_eligibility.py:252-268 | With at most one experiment per arm and comparison no pair is spoilt. |
| OptimizerEffect.SecondCompletionSpoilsPair | research_decision_engine/evidence_eligibility.py:252-268 | A second completion in one arm makes a valid pair vanish: the concrete failure of batch synchronisation. |
| BeliefModels.SourcesAreEarlier | research_decision_engine/belief_models.py:533-564 | Every source of a sigma is an effect of the same group from strictly before the cutoff and never the evidence being scored. |
| BeliefModels.SourcesDistinctIff | research_decision_engine/belief_models.py:156-160 | The sorted sources repeat an identifier if and only if two places of the filtered history do. |
| SigmaMeaning.SelectSigmaMeaning | research_decision_engine/belief_models.py:533-564 | Take the effects of the group available before the cutoff, other than the evidence itself, by sequence and then identifier: the sigma of an update is the fixed 0.05, also for want of five of them, and otherwise their deviation and at least 0.05, with their identifiers as sources. |
| SigmaMeaning.PlanSigmaMeaning | research_decision_engine/closed_loop.py:206-240 | The sigma a planner freezes is estimated in the same way, with nothing left out. |
| SigmaMeaning.ListExists | research_decision_engine/belief_models.py:533-564 | Such a list exists whenever no two of those effects share an identifier. |
| SigmaMeaning.ListedOnce | research_decision_engine/belief_models.py:533-564 | There is only one such list. |
| BeliefModels.MixtureMonotone | research_decision_engine/belief_models.py:925-935 | A mixture of monotone distribution functions is monotone. |
| BeliefModels.MixtureQuantile | research_decision_engine/belief_models.py:938-953 | Computes the value that QuantileAccuracy places within half the final bracket of the exact quantile. |
| BeliefModels.BisectionInvariant | research_decision_engine/belief_models.py:938-953 | After n steps the bracket lies in the start bracket, its ends keep their sides of the probability, and its width times 2^n is the start width. |
| BeliefModels.QuantileAccuracy | research_decision_engine/belief_models.py:938-953 | The returned value is within half the final width of the exact quantile. |
| BeliefModels.QuantileMonotone | research_decision_engine/belief_models.py:938-953 | A larger probability never gives a smaller quantile. |
| BeliefModels.IntervalsNest | research_decision_engine/belief_models.py:956-972 | A wider central interval contains every narrower one, and what the narrower one contains. |
| BeliefModels.DiagnoseKeepsReports | research_decision_engine/belief_models.py:778-856 | Every report counts the outliers of the last five updates, orders its three intervals, and is misspecified or adequate exactly under the stated conditions on its verdicts. |
| BeliefModels.VerdictsExact | research_decision_engine/belief_models.py:788-834 | For a belief and a monotone distribution function no clamp acts, the tail alarm is raised exactly in the two outer fortieths, and the outlier verdict is that of the standardised residual, whose divisor is at least sigma. |
| PredictiveMeaning.MixtureMeaning | research_decision_engine/belief_models.py:925-935 | The predictive distribution function is the sum of the distribution functions of the hypotheses, each times its probability. |
| PredictiveMeaning.MomentsMeaning | research_decision_engine/belief_models.py:778-834 | The predictive mean is the probability-weighted mean, and the variance sigma squared plus the weighted squares of the means less the square of that mean. |
| PredictiveMeaning.IntervalMeaning | research_decision_engine/belief_models.py:956-972 | Each end of a central interval is within the final width of a hundred bisections of any point that leaves half of the remaining probability on its side, and the interval says whether it holds the observation. |
| PredictiveMeaning.ReportMeaning | research_decision_engine/belief_models.py:778-856 | The intervals of a report are the three central ones, of 50, 80 and 95 percent, of the mixture over the hypotheses' means, searched from twelve sigmas beyond the outermost means. |
| BeliefModels.UpdateModelSucceeds | research_decision_engine/belief_models.py:434-511 | New evidence updates the model if and only if a calibrated sigma would not draw on two effects of one identifier, which is the only error; then: valid state, one more evidence identifier, the next sequence, and the posterior of the chosen sigma. |
| EvidenceOutcomes.MassesAreDistribution | research_decision_engine/decision.py:518-535 | For every monotone distribution function the 82 bin masses are already a distribution: clamp and normalisation change nothing. |
| PlannedGain.MassTableMeaning | research_decision_engine/decision.py:518-535 | Row h of the mass table holds the probabilities of the 82 bins between -0.40 and 0.40 and beyond under hypothesis h. |
| EvidenceOutcomes.ExpectedInformationGain | research_decision_engine/decision.py:346-411 | Computes the gain that EstimateExact identifies as mutual information and the outcomes that MostFavourableIsFirstMaximum identifies. |
| EvidenceOutcomes.AccumulateBins | research_decision_engine/decision.py:369-388 | Accumulates the expected entropy behind EstimateExact, the most probable bin, and the bins MostFavourableIsFirstMaximum identifies. |
| EvidenceOutcomes.MostFavourableIsFirstMaximum | research_decision_engine/decision.py:384-388 | The recorded outcome is the first explanatory bin where the hypothesis's posterior is greatest. |
| EvidenceOutcomes.SomeBinExplains | research_decision_engine/decision.py:512-515 | Some bin always reaches the explanatory minimum, so the default outcome is never used. |
| EvidenceOutcomes.EstimateExact | research_decision_engine/decision.py:390-411 | In exact arithmetic the estimate exists, its gain is the mutual information between zero and the current entropy, and every hypothesis has an explanatory outcome. |
| EvidenceOutcomes.EnumerateOutcomes | research_decision_engine/decision.py:414-509 | Lists the branches that OutcomesExact shows to be a distribution of distributions, or fails its own checks. |
| EvidenceOutcomes.OutcomesExact | research_decision_engine/decision.py:414-509 | In exact arithmetic the enumeration succeeds, its branches are a distribution of distributions, and its gain is the mutual information. |
| EvidenceOutcomes.GainsAgree | research_decision_engine/decision.py:346-509 | The estimate and the enumeration compute the same gain. |
| PlannedGain.EstimateMeaning | research_decision_engine/decision.py:346-411 | The estimated gain is the mutual information of the belief and the bin of one observation, for whatever bin probabilities and Bayes table fit the hypotheses; ExpectedGainUnique says that only one number is. |
| PlannedGain.OutcomesMeaning | research_decision_engine/decision.py:414-509 | So is the gain of the enumerated outcomes. |
| PlannedGain.ExpectedGainUnique | research_decision_engine/decision.py:346-411 | Only one number is the mutual information of a belief and the bin of one observation. |
| PlannedGain.OutcomeBranchesMeaning | research_decision_engine/decision.py:414-509 | The enumerated outcomes are exactly the bins an observation can fall in, in order, each with its probability, the belief Bayes' rule gives, and the entropy left. |
| PlannedGain.ContextsMeaning | research_decision_engine/decision.py:559-585 | The context of a hypothesis holds its probability and the first of the bins of at least one in a million that leave it most probable. |
| OneStepPolicy.DecideInformationGain | research_decision_engine/decision.py:202-342 | Makes the decision that DecideExact characterises: it fails exactly when nothing is on offer and selects the best. |
| OneStepPolicy.RankInOrder | research_decision_engine/decision.py:588-608 | Attaches the reasons whose truth ReasonExactIff decides. |
| OneStepPolicy.OffersAreConsidered | research_decision_engine/decision.py:226-243 | The scored candidates are exactly those that are open, costed, affordable, assessed and not excluded. |
| OneStepPolicy.SelectedIsBest | research_decision_engine/decision.py:280-307 | No score betters the selected one in the promised order, and the ranking lists exactly the scores. |
| OneStepPolicy.DecideExact | research_decision_engine/decision.py:202-342 | The decision succeeds exactly when some candidate is open, affordable and not excluded, and then selects the best of them. |
| OneStepPolicy.RankingIsSorted | research_decision_engine/decision.py:280-307 | No score of a ranking betters an earlier one. |
| ClosedLoopDecisions.DecideMeaning | research_decision_engine/decision.py:202-342 | A decision that is made, for whatever problem, is of a candidate on offer, with the gain expected of the pair it completes or none: no offer has a greater gain, the same gain for less, or the same of both and an earlier identifier; when nothing is to be learned it is the cheapest, as a fallback. |
| OneStepPolicy.ReasonExactIff | research_decision_engine/decision.py:588-608 | For non-negative gains a loser's reason is the first component in which it is worse if and only if gains do not rank first or do not differ by a positive amount within the tolerance; fallback rankings only state true reasons. |
| OneStepPolicy.OneEstimateReasonsExact | research_decision_engine/decision.py:588-608 | With one estimate for all candidates, as in the base policy, every stated reason is true. |
| LookaheadPolicy.FindBestSecondAction | research_decision_engine/lookahead.py:678-729 | Finds the second action that BestSecondExact shows to be optimal. |
| LookaheadPolicy.BestSecondExact | research_decision_engine/lookahead.py:678-729 | In every branch the second action is found; it is STOP or an affordable pair closer, and neither STOP nor any affordable closer precedes it. |
| LookaheadPolicy.PlanWithExact | research_decision_engine/lookahead.py:603-629 | The chain rule: total gain is immediate gain plus the probability-weighted gain of the second actions, no clamp or error acts, and every branch fits the budget. |
| LookaheadPolicy.PlanFirstExact | research_decision_engine/lookahead.py:547-675 | Whenever the guards of its second step can be answered a first action is planned without an error, obeys the chain rule, and has an optimal second action in each branch; PlanFirstMeaning says which those actions are. |
| LookaheadMeaning.SecondActionsExact | research_decision_engine/lookahead.py:561-567 | The second actions considered after a first action c are exactly the candidates other than c that are not completed, cost at most what is left plus the slack, and whose comparison has no pair after one completion of c and has one after a completion of c and then theirs, however both come out. |
| LookaheadMeaning.PartnerCloses | research_decision_engine/lookahead.py:561-567 | If completing c opens a pair, completing any candidate of the other arm of its comparison after c makes the pair appear. |
| LookaheadMeaning.PlanFirstMeaning | research_decision_engine/lookahead.py:547-675 | Every plan starts from the bins of the pair its first action completes, or from the belief as it is; each branch takes STOP or a second action so considered that no other such action and not STOP comes before, by the gain expected of its pair, cost and identifier; total gain and cost are the expectations over the branches. |
| LookaheadMeaning.OpenerIsWorthItsPair | research_decision_engine/lookahead.py:547-729 | A plan whose first action opens a pair has one branch, whose second action and so the whole plan gains at least what is expected of every open, affordable candidate of the other arm; if that is positive the branch does not stop. |
| LookaheadPolicy.DecideLookaheadPlan | research_decision_engine/lookahead.py:427-545 | Makes the decision that DecideLookaheadExact characterises: it fails exactly when nothing is on offer and selects the least exact plan. |
| LookaheadPolicy.RankPlansInOrder | research_decision_engine/lookahead.py:764-781 | Attaches the reasons that LoserReasonExact shows to be true. |
| LookaheadPolicy.SelectedPlanIsLeast | research_decision_engine/lookahead.py:481-483 | No plan precedes the selected one, and every plan of another candidate comes strictly after it. |
| LookaheadPolicy.LoserReasonExact | research_decision_engine/lookahead.py:764-781 | Every loser's stated reason is the first sort component in which it is strictly worse; with one plan per candidate that includes the identifier. |
| Ordering.StringLessIff | research_decision_engine/lookahead.py:744-761 | Identifiers are ordered by the first character in which they differ, a proper prefix first. |
| LookaheadPolicy.RatioNeverDecides | research_decision_engine/lookahead.py:744-781 | The ratio component never decides, because it is determined by the two before it. |
| LookaheadPolicy.DecideLookaheadExact | research_decision_engine/lookahead.py:427-545 | The decision succeeds exactly when some candidate is open, affordable and not excluded, and then selects the least of all exact plans. |
| LookaheadMeaning.DecideLookaheadMeaning | research_decision_engine/lookahead.py:427-545 | The decision succeeds exactly when a candidate is on offer, and selects a plan so described of one; no such plan of another has a greater total gain, the same for less, or the same of both and an earlier identifier. |
| LookaheadMeaning.PlansAreSorted | research_decision_engine/lookahead.py:481-483 | No plan of a ranking betters an earlier one. |
| PredictionAdapter.BuildPredictionAdapter | research_decision_engine/closed_loop.py:179-274 | Freezes one snapshot per sorted group and fails as AdapterIsBuilt says: at the first group with a repeated source, or without any group. |
| PredictionAdapter.OneSigma | research_decision_engine/closed_loop.py:206-240 | The planner's sigma, status and sources equal the updater's if and only if the model is fixed or no earlier effect of the group carries the evidence's own identifier. |
| PredictionAdapter.AdapterIsBuilt | research_decision_engine/closed_loop.py:196-274 | An adapter is built if and only if some optimizer design exists and, for a calibrated model, no optimizer group has two available effects of one identifier; each failure has its own error, and a built adapter has a snapshot for every optimizer group. |
| PredictionAdapter.SnapshotsInOrder | research_decision_engine/closed_loop.py:190-206 | The snapshots of a built adapter are those of optimizer groups, in strictly ascending order of their groups. |
| PredictionAdapter.RepeatedCalibrationIsRejected | research_decision_engine/closed_loop.py:94-102 | Two effects of one identifier and optimizer group, available from the start, are rejected by a calibrated model; one of them alone, or a fixed model, is not. |
| PredictionAdapter.PairCloserHasSnapshot | research_decision_engine/closed_loop.py:156-163 | A candidate that completes a pair always has a snapshot, that of its own group. |
| PredictionAdapter.DecideInformationGainWithAdapter | research_decision_engine/closed_loop.py:277-431 | Makes the decision that DecideAdaptedExact characterises and OneStepRefines compares with the base policy. |
| PredictionAdapter.BestSecondActionWithAdapter | research_decision_engine/closed_loop.py:776-832 | Finds the second action that PlanFirstAdaptedExact shows to be optimal in every branch. |
| PredictionAdapter.DecideLookaheadWithAdapter | research_decision_engine/closed_loop.py:533-649 | Makes the decision that DecideLookaheadAdaptedExact characterises and TwoStepRefines compares with the base policy. |
| AdapterRefinement.DecideAdaptedExact | research_decision_engine/closed_loop.py:277-431 | The one-step adapter decision succeeds exactly when something is on offer and selects the best, each candidate scored by its own group. |
| AdapterRefinement.AdaptedReasonExactIff | research_decision_engine/closed_loop.py:434-455 | In an adapter decision, with a gain of its own for each group, a loser's reason is true if and only if the decision is a fallback or the gains do not differ by a positive amount within the tolerance. |
| ToleranceTies.LowerGainSaidLater | research_decision_engine/closed_loop.py:434-455 | A concrete decision of a built adapter over two groups: the loser has the lower gain and is said to lose by identifier. |
| AdapterRefinement.PlanFirstAdaptedExact | research_decision_engine/closed_loop.py:652-773 | Every first action of the adapter planner is planned without an error, obeys the chain rule, and closes pairs optimally with each group's own gain; PlanFirstAdaptedMeaning says which actions those are. |
| LookaheadMeaning.PlanFirstAdaptedMeaning | research_decision_engine/closed_loop.py:652-773 | Every plan of the adapter's planner is as PlanFirstMeaning describes, with the first action and every closer weighed by the hypotheses frozen for their own group; OpenerIsWorthItsPair holds of it. |
| LookaheadMeaning.GroupHypothesesMeaning | research_decision_engine/closed_loop.py:156-163 | The hypotheses used for a candidate are those of a snapshot of its comparison group. |
| AdapterRefinement.DecideLookaheadAdaptedExact | research_decision_engine/closed_loop.py:533-649 | The two-step adapter decision succeeds exactly when something is on offer and selects the least exact plan. |
| LookaheadMeaning.DecideLookaheadAdaptedMeaning | research_decision_engine/closed_loop.py:533-649 | The adapter's decision succeeds exactly when a candidate is on offer, and selects the best plan so described, as in DecideLookaheadMeaning. |
| ClosedLoopDecisions.FallbackMeaning | research_decision_engine/closed_loop.py:352-409 | A fallback of the adapter says that nothing is reducible exactly when no group's pair is expected to tell anything, and its contexts are those of the group of the selection, or of the first group. |
| AdapterRefinement.OneStepRefines | research_decision_engine/closed_loop.py:1529-1557 | With one set of hypotheses for all groups the one-step adapter returns the base policy's decision, or its error, for every problem. |
| AdapterRefinement.TwoStepRefines | research_decision_engine/closed_loop.py:1558-1580 | With one set of hypotheses for all groups the two-step adapter succeeds exactly when the base policy does, with its plan trace, for every problem; TwoStepAgreeIff says when their errors agree. |
| AdapterRefinement.TwoStepErrorsDiffer | research_decision_engine/closed_loop.py:553-580 | A concrete disagreement: a single candidate that is completed and has no cost is a missing cost to the base policy and nothing feasible to the adapter. |
| PlanningGuards.AdaptedFailsAsGuards | research_decision_engine/closed_loop.py:533-649 | Within a budget the two-step adapter succeeds exactly when the guards of its loops and of its fingerprints do, and otherwise reports the first error they meet, for every problem. |
| PlanningGuards.TwoStepAgreeIff | research_decision_engine/closed_loop.py:1558-1580 | The adapter and the base policy return the same result, errors included, if and only if the budget is negative, every candidate has a valid cost, or those guards first meet the error that validating all costs in advance reports; for every problem. |
| PlanningGuards.RegisteredGuards | research_decision_engine/closed_loop.py:552-580 | With every candidate and completed experiment registered the guards object to the first open candidate in identifier order without a valid cost; if there is none they report nothing feasible, or, with something on offer, the first invalid cost of all. |
| PlanningGuards.RegisteredTwoStepAgreeIff | research_decision_engine/closed_loop.py:1558-1580 | The same equivalence in terms of costs alone, with everything registered. |
| ClosedLoop.SelectedOnlyObservationOracle.RevealSelected | research_decision_engine/closed_loop.py:1056-1092 | A reveal appends one access with the committed outcome; a blank run identifier and a repeated or uncommitted candidate are refused and change nothing. |
| ClosedLoop.RunClosedLoopArm | research_decision_engine/closed_loop.py:1327-1514 | Runs the arm over its own variables and the mutable oracle and freezes a trace row per experiment; RunReturns, EveryHead, RunSucceedsIff and TraceIsRecorded say what comes of it. |
| ClosedLoop.ExecuteSelected | research_decision_engine/closed_loop.py:1411-1449 | Reveals the selected candidate, adds its rounded cost and records experiment and decision, as ExecutedShape states, or refuses it with the first error it meets. |
| ClosedLoop.FreezeRow | research_decision_engine/closed_loop.py:1432-1494 | Freezes the row of an experiment from the running best and the counts before it; TraceIsRecorded says what the rows hold. |
| ClosedLoopTrace.TraceIsRecorded | research_decision_engine/closed_loop.py:1451-1494 | A returned run has one frozen row per experiment: its experiment, committed outcome and costs so far, the best outcome so far, the evidence new with it and all so far, the sigma of its own update, the latest adequacy, and the posterior in identifier order with its entropy, each equal to what the returned experiments, decisions, evidence and updates say. |
| ClosedLoop.DecideNext | research_decision_engine/closed_loop.py:1384-1410 | Takes the decision of one step, which DecidedSelects characterises, or fails as StepFailsIffStuck says. |
| ClosedLoop.DecideArmPolicy | research_decision_engine/closed_loop.py:1517-1580 | Makes the choice that ChoiceByPolicy and ChoiceMeaning identify, and fails as ChoiceExact says; its comparison with the base policy never fails, by NoRegressionMismatch. |
| ClosedLoopDecisions.ChoiceByPolicy | research_decision_engine/closed_loop.py:1528-1558 | Whatever the arm and the problem, a choice of a lookahead arm is a two-step trace of the least plan of the adapter, and a choice of an information-gain arm a one-step trace of the best score by group. |
| ClosedLoopDecisions.ChoiceMeaning | research_decision_engine/closed_loop.py:1517-1580 | Whatever the problem, a choice that is made is, for information gain, the best offer, and for lookahead the best plan, stated in the experiments completed, the costs and the gain expected of each pair under its group's hypotheses. |
| ClosedLoopDecisions.EveryDecision | research_decision_engine/closed_loop.py:1365-1472 | Every decision recorded at every head of every run is the best choice of the arm's policy: over the candidates open after the experiments before it and within what they left of the budget, under the belief after the updates so far and the sigmas frozen from the effects so far. |
| ClosedLoopDecisions.ReturnedDecisions | research_decision_engine/closed_loop.py:1365-1514 | So is every decision of a returned run. |
| ClosedLoop.AbsorbNewPairs | research_decision_engine/closed_loop.py:1453-1472 | Extends evidence, updates, effect history and applied pairs as AbsorbKeepsEvidence states and touches nothing else. |
| ClosedLoop.NextShrinks | research_decision_engine/closed_loop.py:1365-1369 | Every iteration strictly shrinks the set of uncompleted candidates, so the loop terminates. |
| ClosedLoopRuns.DecidedSelects | research_decision_engine/closed_loop.py:1392-1413 | A decision selects an open candidate of the feasible list that fits what remains without slack, and records its true assessment effect. |
| ClosedLoopRuns.AdmissibleKeepsOnePerArm | research_decision_engine/evidence_eligibility.py:146-233 | Completions the planners allow keep at most one experiment in each arm of each comparison. |
| ClosedLoopRuns.AbsorbKeepsEvidence | research_decision_engine/closed_loop.py:1453-1472 | Executing a selection applies exactly the predicted pair, with new evidence and an update that succeeds unless its sources repeat an identifier, or nothing, and keeps the evidence exact. |
| ClosedLoopSafety.StepKeepsInvariant | research_decision_engine/closed_loop.py:1365-1494 | An iteration keeps the invariant of every loop head and adds one update if and only if the selected candidate's assessment said completes_pair. |
| ClosedLoopSafety.EveryHead | research_decision_engine/closed_loop.py:1365-1494 | The invariant holds at every loop head that any run reaches, after exactly as many experiments as iterations. |
| ClosedLoopSafety.EvidenceExactlyOnce | research_decision_engine/closed_loop.py:1453-1472 | At every head evidence and comparisons with both arms completed correspond one to one, and lineage identifiers, applied pairs, updates and completing decisions match them. |
| ClosedLoopBeliefs.HeadEvidence | research_decision_engine/closed_loop.py:1453-1472 | At every head the evidence is exactly that of the comparisons with one completion in each arm, each with Adam's observation less SGD's, rounded. |
| ClosedLoopBeliefs.EveryUpdate | research_decision_engine/closed_loop.py:1453-1472 | Every decision that completes a pair has made one update: on the evidence of its experiment's comparison, with the sigma that calibration effects and earlier evidence of the group give, moving the belief before it by Bayes' rule over the three hypotheses, and reported against the belief before it. |
| ClosedLoopBeliefs.HeadEffectsMeaning | research_decision_engine/closed_loop.py:1453-1472 | The effects seen at a head are the calibration effects and one for every evidence, under its name and group, with its comparison, available to later updates only. |
| ClosedLoopBeliefs.RunFollowsEvidence | research_decision_engine/closed_loop.py:1453-1472 | Every update of every run moves the odds of adam-advantage against sgd-advantage towards the arm that is ahead, or not at all, for densities that never rise with the distance from the mean. |
| ClosedLoopSafety.RunReturns | research_decision_engine/closed_loop.py:1496-1514 | A returned run is at one of its heads, its accesses are its experiments in order, and its stop reason is true: all completed, or every remaining candidate unaffordable. |
| ClosedLoopSafety.StopsExactly | research_decision_engine/closed_loop.py:1365-1380 | The loop stops exactly when no open candidate fits what remains plus the slack. |
| ClosedLoopSafety.RunFailsOnlyInLoop | research_decision_engine/closed_loop.py:1340-1345 | Outside the loop a run fails only for a fixed-sigma arm with calibration effects; the final access check never fails. |
| ClosedLoopSafety.RevealedOnce | research_decision_engine/closed_loop.py:1056-1092 | No candidate is revealed twice in a run. |
| ClosedLoopSafety.PlannedSigmaIsUsed | research_decision_engine/closed_loop.py:1384-1472 | Whenever a step produces evidence its update uses the value, status and sources of the snapshot its own planner saw for that group if and only if the arm is fixed or no calibration effect the planner saw carries the identifier of that evidence. |
| ClosedLoopSafety.ApartSigmaIsUsed | research_decision_engine/closed_loop.py:1384-1472 | With calibration effects named apart from evidence every update uses the sigma its planner saw. |
| ClosedLoopSafety.SourcesStrictlyEarlier | research_decision_engine/belief_models.py:434-564 | Update i has cutoff i and draws only on calibration effects and on evidence of earlier updates of its group. |
| ClosedLoopSafety.SeededUpdatesAreCalibrated | research_decision_engine/belief_models.py:545-564 | With five calibration effects for its group an update of a calibrated arm is calibrated, with sigma at least the floor. |
| ClosedLoopSafety.CostWithinBudget | research_decision_engine/closed_loop.py:1417-1421 | The cumulative cost is the rounded running total and never exceeds the rounded budget, tolerance or not. |
| SpendingLimit.NeverExceededIff | research_decision_engine/closed_loop.py:1417-1422 | For any positive budget: every head of every run of every sound arm with that budget is within it if and only if rounding to twelve decimals does not raise the budget. |
| SpendingLimit.GridBudgetNeverExceeded | research_decision_engine/closed_loop.py:1417-1422 | So a budget of at most twelve decimals is never exceeded. |
| SpendingLimit.BudgetExceeded | research_decision_engine/closed_loop.py:1417-1422 | A concrete arm with a budget of 6e-13 whose run returns having spent 1e-12. |
| SpendingLimit.SpentRounds | research_decision_engine/closed_loop.py:1417-1419 | Each experiment adds its cost to what was spent before, and the sum is rounded to twelve decimals. |
| SpendingLimit.HeadSpends | research_decision_engine/closed_loop.py:1417-1419 | At every head every experiment has a given cost, and what is spent is off the sum of those costs by at most half a unit of 1e-12 for each experiment. |
| ClosedLoopSafety.FixedRunMatchesStore | research_decision_engine/optimizer_effect.py:90-127 | At every head a fixed-sigma run holds the evidence and the exact posterior of a store that synchronises its experiments once. |
| ClosedLoopProgress.FullBudgetRun | research_decision_engine/closed_loop.py:1417-1421 | A ready run whose only candidate costs the whole budget returns if and only if its calibration effects repeat no source, and then ends at the rounded budget. |
| ClosedLoopProgress.NoRegressionMismatch | research_decision_engine/closed_loop.py:1544-1580 | A fixed-sigma arm never reports that its adapter changed the policy's behaviour, for any problem. |
| ClosedLoopProgress.ChoiceExact | research_decision_engine/closed_loop.py:1517-1580 | A choice is made exactly when some candidate is open, affordable and not excluded, and is then the best offer or the best plan, by the arm's policy; otherwise the error is that none is feasible. |
| ClosedLoopProgress.StepFailsIffStuck | research_decision_engine/closed_loop.py:1371-1410 | At any head of a ready arm a step fails if and only if some candidate fits with the loop's slack while sources repeat or none is open, admissible and affordable without the slack; the error says which. |
| ClosedLoopProgress.SourcesRepeatIff | research_decision_engine/closed_loop.py:94-102 | At any head sources repeat if and only if the arm is calibrated and, for some optimizer group, two available calibration effects share an identifier or one has that of evidence already applied. |
| ClosedLoopProgress.RepeatedCalibrationStopsTheRun | research_decision_engine/closed_loop.py:1382-1387 | Two calibration effects of one optimizer group and identifier, available from the start, make the run fail at its first adapter. |
| ClosedLoopProgress.SharedEvidenceIdStopsTheRun | research_decision_engine/closed_loop.py:1382-1387 | A calibration effect with the identifier of evidence applied for its group makes the next adapter, and so the run, fail. |
| ClosedLoopProgress.StuckIffInGap | research_decision_engine/closed_loop.py:1371-1376 | With one candidate per arm a head is stuck exactly when something fits with the slack while sources repeat or everything within the slack costs more than what remains. |
| ClosedLoopProgress.CoarseHeadStuckIff | research_decision_engine/closed_loop.py:1371-1387 | With costs on a grid wider than the slack as well, a head is stuck exactly when something is affordable and sources repeat. |
| ClosedLoopProgress.RunSucceedsIff | research_decision_engine/closed_loop.py:1365-1498 | A ready run returns if and only if none of its heads is stuck. |
| ClosedLoopProgress.GridRunReturns | research_decision_engine/closed_loop.py:1365-1514 | With one candidate per arm, budget and costs on a grid wider than the slack, and calibration effects named apart within their group and from evidence, every ready run returns, stopping only when all is done or unaffordable. |
| ClosedLoopProgress.GapStopsTheRun | research_decision_engine/closed_loop.py:1371-1376 | When every cost exceeds the budget and one of them by at most the slack, the run fails. |
| Calibration.CalibrationReplicationContract.ConsumePair | research_decision_engine/calibration.py:312-387 | Checks before it extends both sets, and returns the effect; RejectedConsumeUnchangedIff says when a rejection has changed them. |
| CalibrationMeaning.ConsumeSucceedsIff | research_decision_engine/calibration.py:312-387 | A pair is consumed exactly when its replication and both arms are new, one arm is Adam's and the other SGD's, both belong to the replication and group, they share their seed key and not their noise, and are two; the effect is Adam's observation less SGD's, rounded. |
| Calibration.RejectedConsumeUnchangedIff | research_decision_engine/calibration.py:312-387 | A rejected consume leaves the sets unchanged if and only if the arm identifiers differ or an earlier check already failed. |
| Calibration.SharedArmIdIsConsumed | research_decision_engine/calibration.py:364-387 | Two arms under one identifier are rejected after both sets have been extended: a concrete case. |
| Calibration.BuildCalibrationPrefix | research_decision_engine/calibration.py:390-568 | Builds the prefix that BuildExact characterises, with a contract object of its own. |
| Calibration.GroupedExact | research_decision_engine/calibration.py:402-532 | The loops succeed exactly when every key has one design per arm, every replication is observable and no two keys share a comparison group. |
| Calibration.BuildExact | research_decision_engine/calibration.py:390-568 | A prefix is built exactly under that condition; it then has five effects and ten arms per comparison, consumed each once, no effect identifier twice, at five times the pairs' summed cost. |
| CalibrationBuild.BuildSucceedsIff | research_decision_engine/calibration.py:390-568 | A prefix is built if and only if there is an optimizer comparison, each has exactly one design in each arm and can be observed in its first five replications, with noise that differs and no negative cost, and no comparison group has two comparisons. |
| CalibrationBuild.BuiltRecords | research_decision_engine/calibration.py:390-568 | A built prefix records, comparison after comparison in the order their keys sort, five replications of both candidates, SGD first: identity, group, seed, observation, cost and noise of each arm, and the effect, Adam's observation less SGD's; its cost is the sum of the costs of all arms. |
| CalibrationMeaning.BuiltEffectsObserve | research_decision_engine/calibration.py:390-568 | A built prefix holds, for the two designs of every optimizer comparison, what the hidden world shows of Adam less SGD in each of the first five replications, and nothing else. |
| CalibrationMeaning.SeededEffectsObserve | research_decision_engine/belief_models.py:76-88 | The calibration effects of a seeded arm are exactly those observations, for their comparison groups and available from the start. |
| Calibration.SharedGroupStopsTheBuild | research_decision_engine/calibration.py:461-467 | Two comparisons of one group cannot be calibrated together. |
| CalibratedRuns.FiveEffectsPerGroup | research_decision_engine/calibration.py:390-568 | A built prefix gives an arm five effects for the group of every optimizer design. |
| CalibratedRuns.SeededRunIsCalibrated | research_decision_engine/belief_models.py:76-88 | At every head of a run seeded with a built prefix every update is calibrated, with sigma at least the floor. |
| CalibratedRuns.SeededRunReturns | research_decision_engine/closed_loop.py:1365-1514 | With one candidate per arm and costs on such a grid a ready run seeded with a built prefix returns with every update calibrated; its calibration effects need no further condition. |
| Rounding.RoundFixesGrid | research_decision_engine/closed_loop.py:1418-1418 | The rounded total is always a multiple of 1e-12, and rounding changes nothing exactly when the sum already is one. |
| Rounding.RoundsToIff | research_decision_engine/closed_loop.py:1418-1418 | A rounded value is the multiple of 1e-12 at most half a unit away, the even one of two. |

## Left out

- Float arithmetic: rounding, `math.fsum`, overflow and finiteness checks; all numbers are exact reals, and `math.isclose` checks keep their tolerance.
- The real Gaussian density, error function, logarithm and sample standard deviation: abstract functions with stated hypotheses.
- Decimal contexts and the fixed-point text of table scores: quantisation is an abstract monotone function that keeps zero and non-negative values.
- SHA-256, canonical JSON, stable identifiers, timestamps, provenance and rationale prose: structural values, or left out where nothing reads them back.
- Type, finiteness and non-empty-string guards of records, the positivity of record ids, which count from one, and record constructors whose checks repeat what the computing code has just established.
- The evidence-model constructor's own errors and payload decoding of the table policy: a valid model is a precondition of the policy.
- Optimizer designs derived from candidates when no contract is given; every contract here is given.
- Belief-model, lineage and version identifiers, and the checks that compare them: the model is a value passed to every call, so a foreign lineage cannot be expressed.
- Sample mean and raw standard deviation recorded beside a sigma; the calculated density, distribution value and residuals recorded in a diagnostic.
- Random policy internals: `random.Random(seed).choice` is an arbitrary function that picks an index below the number of candidates.
- The potential-outcome commitment's construction; the oracle's outcomes are a given map.
- Two control values that Python compares as equal, 1 and 1.0, are one value here, in keys, in designs and in the text a key sorts by.
- Database storage, migrations, the file system and export directories: a store is an append-only sequence.
- Command adapters, the command line, release checks, reporting, and the version 1 and 2 bundles.
