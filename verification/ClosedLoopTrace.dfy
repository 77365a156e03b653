/** The frozen trace of a run: its rows are what the returned records say, one for every experiment. */
module ClosedLoopTrace {
  import opened Wrappers
  import opened Ordering
  import opened Information
  import opened EvidenceEligibility
  import opened Reasoning
  import opened OptimizerEffect
  import opened BeliefModels
  import opened OneStepPolicy
  import opened ClosedLoop
  import opened ClosedLoopRuns
  import opened ClosedLoopSafety

  /** The belief after the first `k` updates. */
  function BeliefAfter(updates: seq<ModelUpdate>, k: nat): BeliefState
    requires k <= |updates|
  {
    if k == 0 then InitialState() else updates[k - 1].bayes.after
  }

  /** The best of the first observations. */
  ghost predicate IsBest(completed: seq<CompletedExperiment>, n: nat, best: real)
    requires n <= |completed|
  {
    && (exists j :: 0 <= j < n && completed[j].observed == best)
    && (forall j :: 0 <= j < n ==> completed[j].observed <= best)
  }

  /** Row `i` against the records of the run: experiment `i`, the costs so far, and the evidence, updates and
      belief of the pairs that the decisions up to it completed. */
  ghost predicate RowRecorded(arm: Arm, s: LoopState, row: TraceRow, i: nat)
    requires i < |s.completed|
  {
    var e := s.completed[i];
    && row.step == i + 1
    && row.experimentId == e.recordId == arm.spec.experimentBase + i + 1
    && row.candidateId == e.candidate.id && row.observed == e.observed
    && CostOf(arm.costs, e.candidate.id) == Ok(row.cost)
    && row.cumulativeCost == RunningCost(arm.costs, s.completed[..i + 1])
    && IsBest(s.completed, i + 1, row.bestObserved)
    && |s.decisions| == |s.completed| && |s.updates| == |s.evidence|
    && var before, k := Closers(s.decisions[..i]), Closers(s.decisions[..i + 1]);
    && before <= k <= |s.updates|
    && row.pairsCompleted == k
    && row.newEvidenceIds == EvidenceIds(s.evidence[before..k])
    && row.evidenceIds == EvidenceIds(s.evidence[..k])
    && row.latestSigma == (if s.decisions[i].effect == CompletesPair
                           then Some((s.updates[k - 1].estimate.sigma, s.updates[k - 1].estimate.status)) else None)
    && row.latestAdequacy == (if k == 0 then Uncertain else s.updates[k - 1].report.adequacy)
    && OptimizerState(BeliefAfter(s.updates, k))
    && row.posterior == InIdentifierOrder(BeliefAfter(s.updates, k))
    && row.entropy == Entropy(arm.laws.gain.phi, BeliefAfter(s.updates, k).posterior)
  }

  /** The three probabilities under their identifiers, which ascend. */
  function InIdentifierOrder(b: BeliefState): seq<(string, real)>
    requires WellShaped(b)
  {
    [(b.hypothesisIds[0], b.posterior[0]), (b.hypothesisIds[1], b.posterior[1]), (b.hypothesisIds[2], b.posterior[2])]
  }

  // ----- rows are frozen between heads -----

  lemma HeadFollows(arm: Arm, begin: LoopState, i: nat)
    requires WellShaped(begin.belief) && HeadAt(arm, begin, i + 1).Some?
    ensures HeadAt(arm, begin, i).Some? && WellShaped(HeadAt(arm, begin, i).value.belief)
    ensures Next(arm, HeadAt(arm, begin, i).value) == Ok(Some(HeadAt(arm, begin, i + 1).value))
  {
    hide Next;
  }

  /** From one head to a later one nothing is lost. */
  lemma {:induction false} HeadsGrow(arm: Arm, begin: LoopState, i: nat, n: nat)
    requires WellShaped(begin.belief) && i <= n && HeadAt(arm, begin, n).Some?
    ensures HeadAt(arm, begin, i).Some?
    ensures var s, t := HeadAt(arm, begin, i).value, HeadAt(arm, begin, n).value;
      && s.completed <= t.completed && |t.completed| == |s.completed| + (n - i)
      && s.decisions <= t.decisions && s.evidence <= t.evidence && s.updates <= t.updates
  {
    hide Next;
    if i < n {
      HeadsGrow(arm, begin, i, n - 1);
      NextGrows(arm, HeadAt(arm, begin, n - 1).value);
    }
  }

  /** The first `n` rows are those between the first heads, and the others those frozen from head `n` on. */
  lemma {:induction false} RowsBetweenHeads(arm: Arm, begin: LoopState, n: nat)
    requires WellShaped(begin.belief) && HeadAt(arm, begin, n).Some?
    ensures |TraceFrom(arm, begin)| >= n && TraceFrom(arm, begin)[n..] == TraceFrom(arm, HeadAt(arm, begin, n).value)
    ensures forall i: nat :: i < n ==> RowBetween(arm, begin, TraceFrom(arm, begin)[i], i)
  {
    hide Next, RowOf, TraceFrom;
    if n > 0 {
      RowsBetweenHeads(arm, begin, n - 1);
      var s, t := HeadAt(arm, begin, n - 1).value, HeadAt(arm, begin, n).value;
      TraceStep(arm, s, t);
      var trace := TraceFrom(arm, begin);
      assert trace[n - 1..][0] == trace[n - 1];
      assert trace[n - 1..][1..] == trace[n..];
    }
  }

  predicate RowBetween(arm: Arm, begin: LoopState, row: TraceRow, i: nat)
    requires WellShaped(begin.belief)
  {
    var s, t := HeadAt(arm, begin, i), HeadAt(arm, begin, i + 1);
    s.Some? && t.Some? && Grows(s.value, t.value) && row == RowOf(arm, s.value, t.value)
  }

  // ----- what a head knows -----

  lemma {:induction false} AbsorbKeepsLast(arm: Arm, s: LoopState, pairs: seq<MatchedPair>)
    requires WellShaped(s.belief) && AbsorbAll(arm, s, pairs).Ok? && s.belief == BeliefAfter(s.updates, |s.updates|)
    ensures AbsorbAll(arm, s, pairs).value.belief
      == BeliefAfter(AbsorbAll(arm, s, pairs).value.updates, |AbsorbAll(arm, s, pairs).value.updates|)
  {
    hide UpdateModel, EvidenceFromPair, InitialState;
    if |pairs| > 0 {
      AbsorbKeepsLast(arm, s, pairs[..|pairs| - 1]);
    }
  }

  /** The belief of a head is that of its last update. */
  lemma {:induction false} BeliefIsLast(arm: Arm, log: OracleLog, n: nat)
    requires HeadAt(arm, Start(arm, log), n).Some?
    ensures var s := HeadAt(arm, Start(arm, log), n).value; s.belief == BeliefAfter(s.updates, |s.updates|)
  {
    hide Next, InitialState, Affordable, Decided, Executed, AbsorbAll, ValidUnappliedPairs;
    if n > 0 {
      BeliefIsLast(arm, log, n - 1);
      var s := HeadAt(arm, Start(arm, log), n - 1).value;
      var feasible, record, x, t := NextParts(arm, s);
      ExecutedShape(arm, s, feasible, record);
      AbsorbKeepsLast(arm, x, ValidUnappliedPairs(arm.contract, x.completed, x.applied).value);
    }
  }

  lemma {:induction false} BestIsMaximum(completed: seq<CompletedExperiment>)
    requires |completed| > 0
    ensures IsBest(completed, |completed|, BestObserved(completed))
  {
    var n := |completed| - 1;
    if n == 0 {
      assert completed[0].observed == BestObserved(completed);
    } else {
      BestIsMaximum(completed[..n]);
      var j :| 0 <= j < n && completed[..n][j].observed == BestObserved(completed[..n]);
      assert completed[j].observed == BestObserved(completed[..n]);
      forall k | 0 <= k < |completed| ensures completed[k].observed <= BestObserved(completed) {
        if k < n {
          assert completed[..n][k] == completed[k];
        }
      }
    }
  }

  lemma PosteriorInOrder(b: BeliefState)
    requires OptimizerState(b)
    ensures WellShaped(b) && PosteriorItems(b) == InIdentifierOrder(b)
  {
    hide StringLess, ValidState;
    ShapedState(b);
    IdsAscend();
    var items := InIdentifierOrder(b);
    SortedTriple(items[0], items[1], items[2], ItemBefore);
  }

  // ----- the trace of a returned run -----

  /** Head `i` of a run that reaches head `n` has the first parts of its records, as far as its decisions
      completed pairs. */
  lemma HeadIsPrefix(arm: Arm, log: OracleLog, i: nat, n: nat)
    requires SoundArm(arm) && i <= n && HeadAt(arm, Start(arm, log), n).Some?
    ensures HeadAt(arm, Start(arm, log), i).Some?
    ensures var s, final := HeadAt(arm, Start(arm, log), i).value, HeadAt(arm, Start(arm, log), n).value;
      && HeadInvariant(arm, log, s) && |final.completed| == |final.decisions| == n
      && s.completed == final.completed[..i] && s.decisions == final.decisions[..i]
      && |s.updates| == |s.evidence| == Closers(final.decisions[..i]) <= |final.updates| == |final.evidence|
      && s.updates == final.updates[..|s.updates|] && s.evidence == final.evidence[..|s.evidence|]
      && s.cumulativeCost == RunningCost(arm.costs, final.completed[..i])
      && s.belief == BeliefAfter(final.updates, |s.updates|)
      && s.belief.evidenceIds == EvidenceIds(s.evidence) && OptimizerState(s.belief)
  {
    hide Next, Start, SoundArm, HeadAt, HeadInvariant, RunningCost, OptimizerState, BeliefAfter, Closers, EvidenceIds;
    EveryHead(arm, log, n);
    HeadsGrow(arm, Start(arm, log), i, n);
    EveryHead(arm, log, i);
    BeliefIsLast(arm, log, i);
    HeadCounts(arm, log, HeadAt(arm, Start(arm, log), i).value);
    HeadCounts(arm, log, HeadAt(arm, Start(arm, log), n).value);
    BeliefOfPrefix(HeadAt(arm, Start(arm, log), i).value.updates, HeadAt(arm, Start(arm, log), n).value.updates);
  }

  lemma BeliefOfPrefix(first: seq<ModelUpdate>, updates: seq<ModelUpdate>)
    requires first <= updates
    ensures BeliefAfter(first, |first|) == BeliefAfter(updates, |first|)
  {
  }

  lemma HeadCounts(arm: Arm, log: OracleLog, s: LoopState)
    requires HeadInvariant(arm, log, s)
    ensures |s.decisions| == |s.completed| && |s.updates| == |s.evidence| == Closers(s.decisions)
    ensures s.cumulativeCost == RunningCost(arm.costs, s.completed)
    ensures s.belief.evidenceIds == EvidenceIds(s.evidence) && OptimizerState(s.belief)
    ensures forall i :: 0 <= i < |s.completed| ==>
      s.completed[i].recordId == arm.spec.experimentBase + i + 1 && CostOf(arm.costs, s.completed[i].candidate.id).Ok?
  {
    hide CostOf, AssessCandidate, RunningCost;
    forall i | 0 <= i < |s.completed|
      ensures s.completed[i].recordId == arm.spec.experimentBase + i + 1 && CostOf(arm.costs, s.completed[i].candidate.id).Ok?
    {
      assert DecisionAt(arm, s.completed, s.decisions[i], i);
    }
  }

  lemma ClosersStep(decisions: seq<DecisionRecord>, i: nat)
    requires i < |decisions|
    ensures Closers(decisions[..i + 1]) == Closers(decisions[..i]) + (if decisions[i].effect == CompletesPair then 1 else 0)
  {
    assert decisions[..i + 1][..i] == decisions[..i];
  }

  /** The row frozen by one iteration is recorded in whatever the run goes on to. */
  lemma FrozenRowRecorded(arm: Arm, log: OracleLog, i: nat, n: nat)
    requires SoundArm(arm) && i < n && HeadAt(arm, Start(arm, log), n).Some?
    requires HeadAt(arm, Start(arm, log), i).Some? && HeadAt(arm, Start(arm, log), i + 1).Some?
    requires Grows(HeadAt(arm, Start(arm, log), i).value, HeadAt(arm, Start(arm, log), i + 1).value)
    requires |HeadAt(arm, Start(arm, log), n).value.completed| == n
    ensures RowRecorded(arm, HeadAt(arm, Start(arm, log), n).value,
                        RowOf(arm, HeadAt(arm, Start(arm, log), i).value, HeadAt(arm, Start(arm, log), i + 1).value), i)
  {
    hide Start, SoundArm, HeadAt, HeadInvariant, RunningCost, OptimizerState, CostOf, BestObserved, PosteriorItems, Entropy, IsBest,
      Closers, BeliefAfter, InIdentifierOrder;
    var s, t, final := HeadAt(arm, Start(arm, log), i).value, HeadAt(arm, Start(arm, log), i + 1).value, HeadAt(arm, Start(arm, log), n).value;
    HeadIsPrefix(arm, log, i, n);
    HeadIsPrefix(arm, log, i + 1, n);
    HeadIsPrefix(arm, log, n, n);
    HeadCounts(arm, log, final);
    ClosersStep(final.decisions, i);
    BestOfPrefix(final.completed, i + 1);
    PosteriorInOrder(t.belief);
  }

  lemma BestOfPrefix(completed: seq<CompletedExperiment>, n: nat)
    requires 0 < n <= |completed|
    ensures IsBest(completed, n, BestObserved(completed[..n]))
  {
    var first := completed[..n];
    BestIsMaximum(first);
    var j :| 0 <= j < n && first[j].observed == BestObserved(first);
    assert completed[j] == first[j];
    forall k | 0 <= k < n ensures completed[k].observed <= BestObserved(first) {
      assert first[k] == completed[k];
    }
  }

  /** A returned run has one frozen row per experiment, and every row says what the run's own experiments,
      decisions, evidence and updates say. */
  lemma TraceIsRecorded(arm: Arm, log: OracleLog)
    requires SoundArm(arm) && RunArm(arm, log).Ok?
    ensures var run := RunArm(arm, log).value;
      && |run.trace| == |run.state.completed|
      && forall i: nat :: i < |run.trace| ==> RowRecorded(arm, run.state, run.trace[i], i)
  {
    hide Next, HeadInvariant, SoundArm, Start, OpenIds, RowOf, TraceFrom, HeadAt, RowRecorded, Grows;
    var begin, run := Start(arm, log), RunArm(arm, log).value;
    assert HeadAt(arm, begin, 0) == Some(begin) by { FirstHead(arm, begin); }
    var n := RunEndsAtHead(arm, begin, 0);
    EveryHead(arm, log, n);
    RowsBetweenHeads(arm, begin, n);
    TraceEnds(arm, run.state);
    assert |run.trace| == n;
    forall i: nat | i < n ensures RowRecorded(arm, run.state, run.trace[i], i) {
      assert RowBetween(arm, begin, run.trace[i], i);
      FrozenRowRecorded(arm, log, i, n);
    }
  }

  lemma FirstHead(arm: Arm, begin: LoopState)
    requires WellShaped(begin.belief)
    ensures HeadAt(arm, begin, 0) == Some(begin)
  {
  }
}
