/** A closed-loop arm seeded with a built calibration prefix. */
module CalibratedRuns {
  import opened Wrappers
  import opened Ordering
  import opened EvidenceEligibility
  import opened Reasoning
  import opened OptimizerEffect
  import opened BeliefModels
  import opened ClosedLoop
  import opened ClosedLoopRuns
  import opened ClosedLoopSafety
  import opened ClosedLoopProgress
  import opened Calibration

  /** `MatchedEffectObservation.from_calibration`: available before every decision. */
  function FromCalibration(name: EffectId -> string, effects: seq<CalibrationEffect>): (r: seq<MatchedEffect>)
    ensures |r| == |effects|
  {
    seq(|effects|, i requires 0 <= i < |effects| =>
      MatchedEffect(name(effects[i].id), effects[i].comparisonGroup, effects[i].observed, 0))
  }

  /** The arm reads the effects of a prefix built from its own designs, and calibration effects are
      named apart from each other and from decision evidence. */
  ghost predicate SeededBy(arm: Arm, input: Input, prefix: CalibrationPrefix, name: EffectId -> string) {
    && arm.spec.model.CalibratedSigma?
    && BuildPrefix(input) == Ok(prefix)
    && input.designs == arm.contract.designs
    && arm.calibration == FromCalibration(name, prefix.parts.effects)
    && (forall a, b :: name(a) == name(b) ==> a == b)
    && forall ids, id :: arm.laws.name(ids) != name(id)
  }

  lemma {:induction false} MappedCount(name: EffectId -> string, effects: seq<CalibrationEffect>, group: string)
    requires forall e :: e in effects && e.group == GroupId(group) ==> e.comparisonGroup == group
    ensures |Filtered(FromCalibration(name, effects), (e: MatchedEffect) => e.group == group)|
         >= |EffectsOf(effects, GroupId(group))|
  {
    if |effects| > 0 {
      var n := |effects| - 1;
      MappedCount(name, effects[..n], group);
      assert FromCalibration(name, effects)[..n] == FromCalibration(name, effects[..n]);
    }
  }

  lemma {:induction false} KeysOfDesigns(designs: seq<Design>)
    ensures forall d :: d in designs && d.IsOptimizerEffect() ==> d.Key() in DesignKeys(designs)
  {
    if |designs| > 0 {
      KeysOfDesigns(designs[..|designs| - 1]);
      assert designs == designs[..|designs| - 1] + [designs[|designs| - 1]];
    }
  }

  /** A built prefix has five effects for the group of every optimizer design. */
  lemma FiveEffectsPerGroup(arm: Arm, input: Input, prefix: CalibrationPrefix, name: EffectId -> string, d: Design)
    requires SeededBy(arm, input, prefix, name) && d in arm.contract.designs && d.IsOptimizerEffect()
    ensures |CalibrationOf(arm, d.group)| >= MINIMUM_PRIOR_EFFECTS
  {
    hide BuildPrefix, ComparisonOf, GroupsDistinct, AllObserved, GroupEffects, ConsumedExactlyOnce, TotalPairCost,
      Filtered, ArmsOf;
    BuildExact(input);
    var keys := SortedKeys(input);
    KeysOfDesigns(input.designs);
    SortMembers(DesignKeys(input.designs), (a: ComparisonKey, b: ComparisonKey) => StringLess(input.repr(a), input.repr(b)));
    hide DesignKeys;
    var k :| 0 <= k < |keys| && keys[k] == d.Key();
    var cs := Comparisons(input, keys);
    ComparisonMembers(input.designs, keys[k]);
    assert cs[k].sgd.group == d.group;
    GroupEffectsShape(input, cs[k], CALIBRATION_EFFECT_COUNT);
    var effects := prefix.parts.effects;
    assert EffectsOf(effects, GroupId(d.group)) == GroupEffects(input, cs[k], CALIBRATION_EFFECT_COUNT);
    FilteredMembers(effects, (e: CalibrationEffect) => e.group == GroupId(d.group));
    forall e | e in effects && e.group == GroupId(d.group) ensures e.comparisonGroup == d.group {
      assert e in EffectsOf(effects, GroupId(d.group));
    }
    MappedCount(name, effects, d.group);
  }

  /** At every head of a seeded run every update is calibrated, with sigma at least the floor, from
      sources strictly earlier than itself. */
  lemma SeededRunIsCalibrated(arm: Arm, log: OracleLog, s: LoopState, input: Input, prefix: CalibrationPrefix,
                              name: EffectId -> string)
    requires SoundArm(arm) && HeadInvariant(arm, log, s) && SeededBy(arm, input, prefix, name)
    ensures forall i :: 0 <= i < |s.updates| ==>
      s.updates[i].estimate.status == Calibrated && s.updates[i].estimate.sigma >= SIGMA_FLOOR && s.updates[i].cutoff == i + 1
  {
    hide EvidenceExact, OracleMatches, DecisionsMatch, FixedExact, ExperimentsInOrder, BuildPrefix, SoundArm, CalibrationOf, SelectSigma;
    SeededIsFresh(arm, input, prefix, name);
    forall i | 0 <= i < |s.updates|
      ensures s.updates[i].estimate.status == Calibrated && s.updates[i].estimate.sigma >= SIGMA_FLOOR && s.updates[i].cutoff == i + 1
    {
      var d := EvidenceGroupDesigned(arm, log, s, i);
      FiveEffectsPerGroup(arm, input, prefix, name, d);
      SeededUpdatesAreCalibrated(arm, s, i);
      SourcesStrictlyEarlier(arm, s, i);
    }
  }

  lemma SeededIsFresh(arm: Arm, input: Input, prefix: CalibrationPrefix, name: EffectId -> string)
    requires SeededBy(arm, input, prefix, name)
    ensures ApartFromEvidence(arm) && CalibrationFirst(arm) && DistinctInGroups(arm.calibration)
  {
    hide BuildPrefix;
    BuiltEffectsDistinct(input);
    forall e | e in arm.calibration ensures e.availableSequence == 0 && forall ids :: arm.laws.name(ids) != e.id {
      var i :| 0 <= i < |arm.calibration| && arm.calibration[i] == e;
      var id := prefix.parts.effects[i].id;
      assert e.id == name(id);
    }
  }

  /** A run seeded with a built prefix returns, with every update calibrated: its calibration effects are
      separate of their own accord. */
  lemma SeededRunReturns(arm: Arm, log: OracleLog, input: Input, prefix: CalibrationPrefix, name: EffectId -> string, width: nat)
    requires ReadyArm(arm, log) && OneCandidatePerArm(arm) && CoarseCosts(arm, width) && SeededBy(arm, input, prefix, name)
    ensures RunArm(arm, log).Ok? && ReturnedRun(arm, log, RunArm(arm, log).value)
    ensures var updates := RunArm(arm, log).value.state.updates;
      forall i :: 0 <= i < |updates| ==> updates[i].estimate.status == Calibrated && updates[i].estimate.sigma >= SIGMA_FLOOR
  {
    hide RunArm, HeadInvariant, SoundArm, BuildPrefix, OneCandidatePerArm, CoarseCosts, ReadyCandidate;
    SeededIsFresh(arm, input, prefix, name);
    GridRunReturns(arm, log, width);
    SeededRunIsCalibrated(arm, log, RunArm(arm, log).value.state, input, prefix, name);
  }
}
