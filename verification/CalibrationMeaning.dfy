/** What calibration consumes and what it observes: when a pair is accepted, and which difference of which two
    observations every effect of a built prefix and of a seeded run is. */
module CalibrationMeaning {
  import opened Wrappers
  import opened Ordering
  import opened Rounding
  import opened EvidenceEligibility
  import opened BeliefModels
  import opened ClosedLoop
  import opened CalibratedRuns
  import opened Calibration

  // ----- one pair -----

  /** The arm belongs to this replication of this group, under the group's controls. */
  predicate Belongs(arm: CalibrationArm, group: CalibrationGroup, replication: ReplicationId, seed: ReplicationSeed) {
    && arm.group == group.id && arm.replication == replication && arm.seed == seed && arm.controls == group.controls
    && arm.successful
  }

  /** A pair is consumed exactly when its replication and both of its arms are new, one arm is Adam's and the
      other SGD's, both belong, they share their seed key and not their noise, and they are two arms. */
  lemma ConsumeSucceedsIff(consumed: Consumed, group: CalibrationGroup, replication: ReplicationId, seed: ReplicationSeed,
                           adam: CalibrationArm, sgd: CalibrationArm)
    ensures Consume(consumed, group, replication, seed, adam, sgd).1.Ok? <==>
      && replication !in consumed.replications && adam.id !in consumed.arms && sgd.id !in consumed.arms
      && adam.arm == ADAM && sgd.arm == SGD
      && Belongs(adam, group, replication, seed) && Belongs(sgd, group, replication, seed)
      && adam.sharedKey == sgd.sharedKey && adam.noiseKey != sgd.noiseKey
      && adam.id != sgd.id
    ensures Consume(consumed, group, replication, seed, adam, sgd).1.Ok? ==>
      var (after, effect) := Consume(consumed, group, replication, seed, adam, sgd);
      && after == Consumed(consumed.arms + {adam.id, sgd.id}, consumed.replications + {replication})
      && RoundsTo(adam.observed - sgd.observed, effect.value.observed)
      && effect.value.id == EffectId(replication, adam.id, sgd.id)
      && effect.value.adamArm == adam.id && effect.value.sgdArm == sgd.id
      && effect.value.group == group.id && effect.value.comparisonGroup == group.comparisonGroup
      && effect.value.replication == replication && effect.value.seed == seed
  {
    hide Round12, RoundsTo;
    RoundsToIff(adam.observed - sgd.observed, Round12(adam.observed - sgd.observed));
  }

  // ----- a built prefix -----

  /** The two designs of an optimizer comparison. */
  predicate Opposed(designs: seq<Design>, sgd: Design, adam: Design) {
    && sgd in designs && adam in designs && sgd.IsOptimizerEffect() && sgd.Key() == adam.Key()
    && sgd.arm == SGD && adam.arm == ADAM
  }

  /** The effect is what the hidden world shows in one replication: Adam's observation less SGD's, rounded. */
  ghost predicate Observes(input: Input, sgd: Design, adam: Design, index: nat, e: CalibrationEffect) {
    && sgd.candidateId in input.candidates && adam.candidateId in input.candidates
    && var x, y := input.candidates[sgd.candidateId], input.candidates[adam.candidateId];
    && var replication, seed := ReplicationId(sgd.group, index), ReplicationSeed(sgd.group, index);
    && var seen := input.observe(x, y, replication, seed);
    && RoundsTo(seen.adam - seen.sgd, e.observed)
    && e.comparisonGroup == sgd.group && e.group == GroupId(sgd.group) && e.replication == replication && e.seed == seed
    && e.adamArm == ArmId(replication, y.id, ADAM) && e.sgdArm == ArmId(replication, x.id, SGD)
    && e.id == EffectId(replication, e.adamArm, e.sgdArm)
  }

  lemma {:induction false} GroupEffectsObserve(input: Input, c: Comparison, n: nat)
    requires AllObserved(input, c, n) && ProperComparison(c)
    ensures forall i: nat :: i < n ==> Observes(input, c.sgd, c.adam, i, GroupEffects(input, c, n)[i])
  {
    hide Observes, ReplicationArms;
    if n > 0 {
      GroupEffectsObserve(input, c, n - 1);
      LastEffectObserves(input, c, n);
    }
  }

  lemma LastEffectObserves(input: Input, c: Comparison, n: nat)
    requires AllObserved(input, c, n) && ProperComparison(c) && n > 0
    ensures |GroupEffects(input, c, n)| == n && Observes(input, c.sgd, c.adam, n - 1, GroupEffects(input, c, n)[n - 1])
    ensures forall i :: 0 <= i < n - 1 ==> GroupEffects(input, c, n)[i] == GroupEffects(input, c, n - 1)[i]
  {
    hide Round12, RoundsTo;
    assert ReplicationArms(input, c, n - 1).Ok?;
    var arms := ReplicationArms(input, c, n - 1).value;
    RoundsToIff(arms.1.observed - arms.0.observed, Round12(arms.1.observed - arms.0.observed));
  }

  /** The effects of a prefix are those of its comparisons. */
  lemma {:induction false} AssembledEffects(input: Input, cs: seq<Comparison>, e: CalibrationEffect)
    requires AllGroupsObserved(input, cs)
    ensures e in Assembled(input, cs).effects <==>
      exists k :: 0 <= k < |cs| && e in GroupEffects(input, cs[k], CALIBRATION_EFFECT_COUNT)
  {
    hide GroupEffects, Calibration.GroupArms, AllObserved;
    if |cs| > 0 {
      var n := |cs| - 1;
      AssembledEffects(input, cs[..n], e);
      assert forall k :: 0 <= k < n ==> cs[..n][k] == cs[k];
    }
  }

  /** The effects hold one of this replication of the two designs. */
  ghost predicate Holds(input: Input, effects: seq<CalibrationEffect>, sgd: Design, adam: Design, index: nat) {
    exists e :: e in effects && Observes(input, sgd, adam, index, e)
  }

  /** The effect is one of the first five replications of two opposed designs. */
  ghost predicate Planned(input: Input, e: CalibrationEffect) {
    exists sgd, adam, index: nat :: Opposed(input.designs, sgd, adam) && index < 5 && Observes(input, sgd, adam, index, e)
  }

  /** A built prefix holds, for the two designs of every optimizer comparison, the effect of each of the first
      five replications, and nothing else. */
  lemma BuiltEffectsObserve(input: Input)
    requires BuildPrefix(input).Ok?
    ensures var effects := BuildPrefix(input).value.parts.effects;
      && (forall e :: e in effects ==> Planned(input, e))
      && (forall sgd, adam, index :: Opposed(input.designs, sgd, adam) && 0 <= index < 5 ==> Holds(input, effects, sgd, adam, index))
  {
    hide SortedKeys, ComparisonOf, AllObserved, ReplicationArms, Assembled, CompleteGroups, GroupEffects, Observes, ProperComparison, Opposed,
      ConsumedExactlyOnce, EffectsDistinct, TotalPairCost, Calibration.GroupArms, GroupsDistinct;
    BuildExact(input);
    var keys := SortedKeys(input);
    GroupedExact(input, keys);
    var cs, effects := Comparisons(input, keys), BuildPrefix(input).value.parts.effects;
    assert effects == Assembled(input, cs).effects;
    forall e | e in effects ensures Planned(input, e) {
      AssembledEffects(input, cs, e);
      var k :| 0 <= k < |cs| && e in GroupEffects(input, cs[k], CALIBRATION_EFFECT_COUNT);
      OpposedDesigns(input, keys[k]);
      GroupEffectsObserve(input, cs[k], CALIBRATION_EFFECT_COUNT);
      var i :| 0 <= i < |GroupEffects(input, cs[k], CALIBRATION_EFFECT_COUNT)| && GroupEffects(input, cs[k], CALIBRATION_EFFECT_COUNT)[i] == e;
      assert Observes(input, cs[k].sgd, cs[k].adam, i, e);
    }
    forall sgd, adam, index | Opposed(input.designs, sgd, adam) && 0 <= index < 5 ensures Holds(input, effects, sgd, adam, index) {
      var k := ComparisonFound(input, keys, sgd, adam);
      OpposedDesigns(input, keys[k]);
      GroupEffectsObserve(input, cs[k], CALIBRATION_EFFECT_COUNT);
      var e := GroupEffects(input, cs[k], CALIBRATION_EFFECT_COUNT)[index];
      AssembledEffects(input, cs, e);
      assert e in effects;
    }
  }

  lemma OpposedDesigns(input: Input, key: ComparisonKey)
    requires ComparisonOf(input.designs, key).Some?
    ensures var c := ComparisonOf(input.designs, key).value; Opposed(input.designs, c.sgd, c.adam) && ProperComparison(c)
  {
    hide ComparisonOf;
    ComparisonMembers(input.designs, key);
  }

  /** Two opposed designs are the comparison of their key. */
  lemma ComparisonFound(input: Input, keys: seq<ComparisonKey>, sgd: Design, adam: Design) returns (k: nat)
    requires keys == SortedKeys(input) && Complete(input, keys) && Opposed(input.designs, sgd, adam)
    ensures k < |keys| && Comparisons(input, keys)[k] == Comparison(sgd, adam)
  {
    hide ComparisonOf, DesignKeys;
    KeysOfDesigns(input.designs);
    SortMembers(DesignKeys(input.designs), (a: ComparisonKey, b: ComparisonKey) => StringLess(input.repr(a), input.repr(b)));
    k :| 0 <= k < |keys| && keys[k] == sgd.Key();
    assert ComparisonOf(input.designs, keys[k]).Some?;
    OnlyTwo(input.designs, sgd, adam);
  }

  lemma OnlyTwo(designs: seq<Design>, sgd: Design, adam: Design)
    requires Opposed(designs, sgd, adam) && ComparisonOf(designs, sgd.Key()).Some?
    ensures ComparisonOf(designs, sgd.Key()) == Some(Comparison(sgd, adam))
  {
    var key := sgd.Key();
    FilteredMembers(designs, (d: Design) => d.IsOptimizerEffect() && d.Key() == key);
    hide Filtered;
    var group := DesignsOf(designs, key);
    assert sgd in group && adam in group;
    ArmNames();
  }

  lemma ArmNames()
    ensures ADAM != SGD
  {
    assert |ADAM| != |SGD|;
  }

  /** The calibration effects a seeded arm starts from are those observations, available from the beginning. */
  lemma SeededEffectsObserve(arm: Arm, input: Input, prefix: CalibrationPrefix, name: EffectId -> string, m: MatchedEffect)
    requires SeededBy(arm, input, prefix, name)
    ensures m in arm.calibration <==>
      exists e :: e in prefix.parts.effects
        && m.id == name(e.id) && m.group == e.comparisonGroup && m.observed == e.observed && m.availableSequence == 0
  {
    hide BuildPrefix;
    var effects := prefix.parts.effects;
    if m in arm.calibration {
      var i :| 0 <= i < |arm.calibration| && arm.calibration[i] == m;
      assert effects[i] in effects;
    }
    if e :| e in effects && m.id == name(e.id) && m.group == e.comparisonGroup && m.observed == e.observed && m.availableSequence == 0 {
      var i :| 0 <= i < |effects| && effects[i] == e;
      assert arm.calibration[i] == m;
    }
  }
}
