/** The calibration prefix: consuming matched replications exactly once, and building five effects for
    every optimizer comparison. */
module Calibration {
  import opened Wrappers
  import opened RealSums
  import opened Ordering
  import opened Rounding
  import opened EvidenceEligibility

  const CALIBRATION_EFFECT_COUNT := 5

  // ----- identities, structural where the source hashes them -----

  /** World and evaluation seed are fixed while a prefix is built. */
  datatype GroupId = GroupId(comparisonGroup: string)

  datatype ReplicationId = ReplicationId(comparisonGroup: string, index: nat)

  datatype ReplicationSeed = ReplicationSeed(comparisonGroup: string, index: nat)

  datatype ArmId = ArmId(replication: ReplicationId, candidate: string, arm: string)

  datatype EffectId = EffectId(replication: ReplicationId, adam: ArmId, sgd: ArmId)

  type Controls = seq<(string, ControlValue)>

  datatype CalibrationGroup = CalibrationGroup(id: GroupId, comparisonGroup: string, controls: Controls)

  datatype CalibrationArm = CalibrationArm(
    id: ArmId,
    group: GroupId,
    replication: ReplicationId,
    seed: ReplicationSeed,
    arm: string,
    controls: Controls,
    observed: real,
    cost: real,
    sharedKey: string,
    noiseKey: string,
    successful: bool)

  datatype CalibrationEffect = CalibrationEffect(
    id: EffectId,
    group: GroupId,
    comparisonGroup: string,
    replication: ReplicationId,
    seed: ReplicationSeed,
    adamArm: ArmId,
    sgdArm: ArmId,
    observed: real)

  datatype CalibrationError =
    | DuplicateReplication
    | DuplicateArms
    | ArmsNotComplementary
    | ForeignGroup
    | ReplicationMismatch
    | ControlsDiffer
    | Unsuccessful
    | SharedKeyDiffers
    | NoiseKeysEqual
    | SameArmTwice
    | NoOptimizerGroup
    | GroupIncomplete
    | MissingCandidate(id: string)
    | InvalidObservation
    | InvalidArmCost
    | InvalidPrefix

  // ----- consuming -----

  datatype Consumed = Consumed(arms: set<ArmId>, replications: set<ReplicationId>)

  /** What the loop over both arms rejects in one of them. */
  function ArmProblem(group: CalibrationGroup, replication: ReplicationId, seed: ReplicationSeed, arm: CalibrationArm)
    : Option<CalibrationError>
  {
    if arm.group != group.id then Some(ForeignGroup)
    else if arm.replication != replication || arm.seed != seed then Some(ReplicationMismatch)
    else if arm.controls != group.controls then Some(ControlsDiffer)
    else if !arm.successful then Some(Unsuccessful)
    else None
  }

  /** The checks `consume` makes before it changes anything. */
  function ConsumeProblem(consumed: Consumed, group: CalibrationGroup, replication: ReplicationId, seed: ReplicationSeed,
                          adam: CalibrationArm, sgd: CalibrationArm): Option<CalibrationError>
  {
    if replication in consumed.replications then Some(DuplicateReplication)
    else if adam.id in consumed.arms || sgd.id in consumed.arms then Some(DuplicateArms)
    else if adam.arm != ADAM || sgd.arm != SGD then Some(ArmsNotComplementary)
    else if ArmProblem(group, replication, seed, adam).Some? then ArmProblem(group, replication, seed, adam)
    else if ArmProblem(group, replication, seed, sgd).Some? then ArmProblem(group, replication, seed, sgd)
    else if adam.sharedKey != sgd.sharedKey then Some(SharedKeyDiffers)
    else if adam.noiseKey == sgd.noiseKey then Some(NoiseKeysEqual)
    else None
  }

  function EffectFrom(group: CalibrationGroup, replication: ReplicationId, seed: ReplicationSeed,
                      adam: CalibrationArm, sgd: CalibrationArm): CalibrationEffect
  {
    CalibrationEffect(EffectId(replication, adam.id, sgd.id), group.id, group.comparisonGroup, replication, seed,
                      adam.id, sgd.id, Round12(adam.observed - sgd.observed))
  }

  /** `consume`: the sets afterwards, and the effect or the error. The effect's own constructor rejects
      a repeated arm, but only once both sets have been extended. */
  function Consume(consumed: Consumed, group: CalibrationGroup, replication: ReplicationId, seed: ReplicationSeed,
                   adam: CalibrationArm, sgd: CalibrationArm): (Consumed, Result<CalibrationEffect, CalibrationError>)
  {
    var problem := ConsumeProblem(consumed, group, replication, seed, adam, sgd);
    if problem.Some? then (consumed, Err(problem.value))
    else
      var after := Consumed(consumed.arms + {adam.id, sgd.id}, consumed.replications + {replication});
      if adam.id == sgd.id then (after, Err(SameArmTwice))
      else (after, Ok(EffectFrom(group, replication, seed, adam, sgd)))
  }

  class CalibrationReplicationContract {
    var consumedArmIds: set<ArmId>
    var consumedReplicationIds: set<ReplicationId>

    constructor ()
      ensures State() == Consumed({}, {})
    {
      consumedArmIds, consumedReplicationIds := {}, {};
    }

    ghost function State(): Consumed
      reads this
    {
      Consumed(consumedArmIds, consumedReplicationIds)
    }

    method ConsumePair(group: CalibrationGroup, replication: ReplicationId, seed: ReplicationSeed,
                       adam: CalibrationArm, sgd: CalibrationArm) returns (r: Result<CalibrationEffect, CalibrationError>)
      modifies this
      ensures (State(), r) == Consume(old(State()), group, replication, seed, adam, sgd)
    {
      if replication in consumedReplicationIds {
        return Err(DuplicateReplication);
      }
      var sourceArmIds := {adam.id, sgd.id};
      if sourceArmIds * consumedArmIds != {} {
        assert exists a :: a in sourceArmIds && a in consumedArmIds;
        return Err(DuplicateArms);
      }
      assert adam.id !in consumedArmIds && sgd.id !in consumedArmIds by {
        assert adam.id in sourceArmIds * consumedArmIds <==> adam.id in consumedArmIds;
        assert sgd.id in sourceArmIds * consumedArmIds <==> sgd.id in consumedArmIds;
      }
      if adam.arm != ADAM || sgd.arm != SGD {
        return Err(ArmsNotComplementary);
      }
      var problem := ArmProblem(group, replication, seed, adam);
      if problem.None? {
        problem := ArmProblem(group, replication, seed, sgd);
      }
      if problem.Some? {
        return Err(problem.value);
      }
      if adam.sharedKey != sgd.sharedKey {
        return Err(SharedKeyDiffers);
      }
      if adam.noiseKey == sgd.noiseKey {
        return Err(NoiseKeysEqual);
      }
      consumedArmIds := consumedArmIds + sourceArmIds;
      consumedReplicationIds := consumedReplicationIds + {replication};
      if adam.id == sgd.id {
        return Err(SameArmTwice);
      }
      return Ok(EffectFrom(group, replication, seed, adam, sgd));
    }
  }

  /** A rejected `consume` leaves both sets unchanged unless the two arms share one identifier and
      nothing else is wrong with them. */
  lemma RejectedConsumeUnchangedIff(consumed: Consumed, group: CalibrationGroup, replication: ReplicationId, seed: ReplicationSeed,
                                    adam: CalibrationArm, sgd: CalibrationArm)
    requires Consume(consumed, group, replication, seed, adam, sgd).1.Err?
    ensures Consume(consumed, group, replication, seed, adam, sgd).0 == consumed <==>
      (adam.id != sgd.id || ConsumeProblem(consumed, group, replication, seed, adam, sgd).Some?)
  {
  }

  /** Two arms under one identifier: rejected, and yet consumed. */
  lemma SharedArmIdIsConsumed(group: CalibrationGroup, replication: ReplicationId, seed: ReplicationSeed, id: ArmId)
    ensures var adam := CalibrationArm(id, group.id, replication, seed, ADAM, group.controls, 1.0, 1.0, "k", "a", true);
      var sgd := CalibrationArm(id, group.id, replication, seed, SGD, group.controls, 1.0, 1.0, "k", "s", true);
      Consume(Consumed({}, {}), group, replication, seed, adam, sgd)
        == (Consumed({id}, {replication}), Err(SameArmTwice))
  {
    var none := Consumed({}, {});
    assert none.arms + {id, id} == {id} && none.replications + {replication} == {replication};
    assert "a"[0] != "s"[0];
  }

  // ----- building -----

  datatype PairObservation = PairObservation(adam: real, sgd: real, sharedKey: string, adamNoise: string, sgdNoise: string)

  /** The public designs, the candidates by id, their costs, the hidden world's observations, and the
      name a comparison key sorts by. */
  datatype Input = Input(
    designs: seq<Design>,
    candidates: map<string, Candidate>,
    cost: Candidate -> real,
    observe: (Candidate, Candidate, ReplicationId, ReplicationSeed) -> PairObservation,
    repr: ComparisonKey -> string)

  datatype Prefix = Prefix(
    groups: seq<CalibrationGroup>,
    replications: seq<ReplicationId>,
    arms: seq<CalibrationArm>,
    effects: seq<CalibrationEffect>,
    consumed: Consumed)

  /** The two designs of a comparison. */
  datatype Comparison = Comparison(sgd: Design, adam: Design)

  function DesignKeys(designs: seq<Design>): seq<ComparisonKey> {
    if |designs| == 0 then []
    else
      var rest := DesignKeys(designs[..|designs| - 1]);
      var d := designs[|designs| - 1];
      if d.IsOptimizerEffect() && d.Key() !in rest then rest + [d.Key()] else rest
  }

  function DesignsOf(designs: seq<Design>, key: ComparisonKey): seq<Design> {
    Filtered(designs, (d: Design) => d.IsOptimizerEffect() && d.Key() == key)
  }

  function SortedKeys(input: Input): seq<ComparisonKey> {
    SortBy(DesignKeys(input.designs), (a: ComparisonKey, b: ComparisonKey) => StringLess(input.repr(a), input.repr(b)))
  }

  /** Exactly one design per arm, or none. */
  function ComparisonOf(designs: seq<Design>, key: ComparisonKey): Option<Comparison> {
    var group := DesignsOf(designs, key);
    if |group| != 2 then None
    else if group[0].arm == SGD && group[1].arm == ADAM then Some(Comparison(group[0], group[1]))
    else if group[0].arm == ADAM && group[1].arm == SGD then Some(Comparison(group[1], group[0]))
    else None
  }

  function GroupFor(c: Comparison): CalibrationGroup {
    CalibrationGroup(GroupId(c.sgd.group), c.sgd.group, c.sgd.controls)
  }

  /** `_calibration_arm`. */
  function ArmFor(group: CalibrationGroup, design: Design, candidate: Candidate, replication: ReplicationId, seed: ReplicationSeed,
                  observed: real, cost: real, sharedKey: string, noiseKey: string): CalibrationArm
  {
    CalibrationArm(ArmId(replication, candidate.id, design.arm), group.id, replication, seed, design.arm, design.controls,
                   observed, cost, sharedKey, noiseKey, true)
  }

  /** The two arms of one replication, SGD first. */
  function ReplicationArms(input: Input, c: Comparison, index: nat): Result<(CalibrationArm, CalibrationArm), CalibrationError> {
    var group, replication, seed := GroupFor(c), ReplicationId(c.sgd.group, index), ReplicationSeed(c.sgd.group, index);
    if c.sgd.candidateId !in input.candidates then Err(MissingCandidate(c.sgd.candidateId))
    else if c.adam.candidateId !in input.candidates then Err(MissingCandidate(c.adam.candidateId))
    else
      var sgd, adam := input.candidates[c.sgd.candidateId], input.candidates[c.adam.candidateId];
      var seen := input.observe(sgd, adam, replication, seed);
      if seen.adamNoise == seen.sgdNoise then Err(InvalidObservation)
      else if input.cost(sgd) < 0.0 || input.cost(adam) < 0.0 then Err(InvalidArmCost)
      else Ok((ArmFor(group, c.sgd, sgd, replication, seed, seen.sgd, input.cost(sgd), seen.sharedKey, seen.sgdNoise),
               ArmFor(group, c.adam, adam, replication, seed, seen.adam, input.cost(adam), seen.sharedKey, seen.adamNoise)))
  }

  /** The inner loop: the first `n` replications of a comparison. */
  function Replicated(input: Input, c: Comparison, before: Prefix, n: nat): Result<Prefix, CalibrationError> {
    if n == 0 then Ok(before.(groups := before.groups + [GroupFor(c)]))
    else
      var rest :- Replicated(input, c, before, n - 1);
      var arms :- ReplicationArms(input, c, n - 1);
      var id, seed := ReplicationId(c.sgd.group, n - 1), ReplicationSeed(c.sgd.group, n - 1);
      var (consumed, effect) := Consume(rest.consumed, GroupFor(c), id, seed, arms.1, arms.0);
      if effect.Err? then Err(effect.error)
      else Ok(Prefix(rest.groups, rest.replications + [id], rest.arms + [arms.0, arms.1], rest.effects + [effect.value], consumed))
  }

  /** The outer loop over the sorted comparison keys. */
  function Grouped(input: Input, keys: seq<ComparisonKey>): Result<Prefix, CalibrationError> {
    if |keys| == 0 then Ok(Prefix([], [], [], [], Consumed({}, {})))
    else
      var before :- Grouped(input, keys[..|keys| - 1]);
      var c := ComparisonOf(input.designs, keys[|keys| - 1]);
      if c.None? then Err(GroupIncomplete)
      else if c.value.sgd.controls != c.value.adam.controls then Err(ControlsDiffer)
      else Replicated(input, c.value, before, CALIBRATION_EFFECT_COUNT)
  }

  function EffectsOf(effects: seq<CalibrationEffect>, group: GroupId): seq<CalibrationEffect> {
    Filtered(effects, (e: CalibrationEffect) => e.group == group)
  }

  /** What the prefix's constructor checks of every group: five effects, of distinct replications and
      seeds. */
  predicate CompleteGroups(prefix: Prefix) {
    forall i :: 0 <= i < |prefix.groups| ==>
      var effects := EffectsOf(prefix.effects, prefix.groups[i].id);
      && |effects| == CALIBRATION_EFFECT_COUNT
      && (forall a, b :: 0 <= a < b < |effects| ==> effects[a].replication != effects[b].replication && effects[a].seed != effects[b].seed)
  }

  function Costs(arms: seq<CalibrationArm>): (r: seq<real>)
    ensures |r| == |arms|
  {
    seq(|arms|, i requires 0 <= i < |arms| => arms[i].cost)
  }

  datatype CalibrationPrefix = CalibrationPrefix(parts: Prefix, cost: real)

  /** `build_calibration_prefix`. */
  function BuildPrefix(input: Input): Result<CalibrationPrefix, CalibrationError> {
    var keys := SortedKeys(input);
    if |keys| == 0 then Err(NoOptimizerGroup)
    else
      var parts :- Grouped(input, keys);
      if !CompleteGroups(parts) || Sum(Costs(parts.arms)) < 0.0 then Err(InvalidPrefix)
      else Ok(CalibrationPrefix(parts, Sum(Costs(parts.arms))))
  }

  lemma {:induction false} ReplicationFailureStays(input: Input, c: Comparison, before: Prefix, m: nat, n: nat)
    requires m <= n && Replicated(input, c, before, m).Err?
    ensures Replicated(input, c, before, n) == Replicated(input, c, before, m)
  {
    hide ReplicationArms, Consume;
    if m < n {
      ReplicationFailureStays(input, c, before, m, n - 1);
    }
  }

  lemma {:induction false} GroupFailureStays(input: Input, keys: seq<ComparisonKey>, n: nat)
    requires n <= |keys| && Grouped(input, keys[..n]).Err?
    ensures Grouped(input, keys) == Grouped(input, keys[..n])
  {
    hide Replicated, ComparisonOf;
    if n < |keys| {
      assert keys[..|keys| - 1][..n] == keys[..n];
      GroupFailureStays(input, keys[..|keys| - 1], n);
    } else {
      assert keys[..n] == keys;
    }
  }

  /** The nested loops, with a contract object of their own. */
  method BuildCalibrationPrefix(input: Input) returns (r: Result<CalibrationPrefix, CalibrationError>)
    ensures r == BuildPrefix(input)
  {
    hide ReplicationArms, Consume, ComparisonOf, SortedKeys, GroupFor, CompleteGroups, Sum;
    var keys := SortedKeys(input);
    if |keys| == 0 {
      return Err(NoOptimizerGroup);
    }
    var groups: seq<CalibrationGroup> := [];
    var replications: seq<ReplicationId> := [];
    var arms: seq<CalibrationArm> := [];
    var effects: seq<CalibrationEffect> := [];
    var contract := new CalibrationReplicationContract();
    for k := 0 to |keys|
      invariant Grouped(input, keys[..k]) == Ok(Prefix(groups, replications, arms, effects, contract.State()))
    {
      assert keys[..k + 1][..k] == keys[..k];
      ghost var before := Prefix(groups, replications, arms, effects, contract.State());
      var comparison := ComparisonOf(input.designs, keys[k]);
      if comparison.None? {
        GroupFailureStays(input, keys, k + 1);
        return Err(GroupIncomplete);
      }
      var c := comparison.value;
      if c.sgd.controls != c.adam.controls {
        GroupFailureStays(input, keys, k + 1);
        return Err(ControlsDiffer);
      }
      groups := groups + [GroupFor(c)];
      for i := 0 to CALIBRATION_EFFECT_COUNT
        invariant Replicated(input, c, before, i) == Ok(Prefix(groups, replications, arms, effects, contract.State()))
      {
        var pair := ReplicationArms(input, c, i);
        if pair.Err? {
          ReplicationFailureStays(input, c, before, i + 1, CALIBRATION_EFFECT_COUNT);
          GroupFailureStays(input, keys, k + 1);
          return Err(pair.error);
        }
        var id, seed := ReplicationId(c.sgd.group, i), ReplicationSeed(c.sgd.group, i);
        var effect := contract.ConsumePair(GroupFor(c), id, seed, pair.value.1, pair.value.0);
        if effect.Err? {
          ReplicationFailureStays(input, c, before, i + 1, CALIBRATION_EFFECT_COUNT);
          GroupFailureStays(input, keys, k + 1);
          return Err(effect.error);
        }
        replications := replications + [id];
        arms := arms + [pair.value.0, pair.value.1];
        effects := effects + [effect.value];
      }
    }
    assert keys[..|keys|] == keys;
    ghost var parts := Prefix(groups, replications, arms, effects, contract.State());
    if !CompleteGroups(Prefix(groups, replications, arms, effects, Consumed(contract.consumedArmIds, contract.consumedReplicationIds)))
       || Sum(Costs(arms)) < 0.0 {
      return Err(InvalidPrefix);
    }
    return Ok(CalibrationPrefix(Prefix(groups, replications, arms, effects,
                                       Consumed(contract.consumedArmIds, contract.consumedReplicationIds)),
                                Sum(Costs(arms))));
  }

  // ----- what a prefix consists of -----

  predicate AllObserved(input: Input, c: Comparison, n: nat) {
    forall i: nat :: i < n ==> ReplicationArms(input, c, i).Ok?
  }

  function GroupReplications(c: Comparison, n: nat): (r: seq<ReplicationId>)
    ensures |r| == n
  {
    seq(n, i requires 0 <= i < n => ReplicationId(c.sgd.group, i))
  }

  function GroupArms(input: Input, c: Comparison, n: nat): (r: seq<CalibrationArm>)
    requires AllObserved(input, c, n)
    ensures |r| == 2 * n
  {
    if n == 0 then [] else
      var arms := ReplicationArms(input, c, n - 1).value;
      GroupArms(input, c, n - 1) + [arms.0, arms.1]
  }

  function GroupEffects(input: Input, c: Comparison, n: nat): (r: seq<CalibrationEffect>)
    requires AllObserved(input, c, n)
    ensures |r| == n
  {
    if n == 0 then [] else
      var arms := ReplicationArms(input, c, n - 1).value;
      GroupEffects(input, c, n - 1)
        + [EffectFrom(GroupFor(c), ReplicationId(c.sgd.group, n - 1), ReplicationSeed(c.sgd.group, n - 1), arms.1, arms.0)]
  }

  function ArmIds(arms: seq<CalibrationArm>): set<ArmId> {
    set a | a in arms :: a.id
  }

  /** Nothing of this comparison group has been consumed. */
  ghost predicate GroupUnused(consumed: Consumed, group: string) {
    && (forall r :: r in consumed.replications ==> r.comparisonGroup != group)
    && (forall a :: a in consumed.arms ==> a.replication.comparisonGroup != group)
  }

  predicate ProperComparison(c: Comparison) {
    c.sgd.arm == SGD && c.adam.arm == ADAM && c.sgd.controls == c.adam.controls
  }

  function AfterReplications(input: Input, c: Comparison, before: Prefix, n: nat): Prefix
    requires AllObserved(input, c, n)
  {
    Prefix(before.groups + [GroupFor(c)], before.replications + GroupReplications(c, n),
           before.arms + GroupArms(input, c, n), before.effects + GroupEffects(input, c, n),
           Consumed(before.consumed.arms + ArmIds(GroupArms(input, c, n)),
                    before.consumed.replications + (set r | r in GroupReplications(c, n))))
  }

  lemma ConsumedGrows(input: Input, c: Comparison, before: Prefix, n: nat)
    requires AllObserved(input, c, n + 1)
    ensures var arms := ReplicationArms(input, c, n).value;
      var after := AfterReplications(input, c, before, n).consumed;
      AfterReplications(input, c, before, n + 1).consumed
        == Consumed(after.arms + {arms.1.id, arms.0.id}, after.replications + {ReplicationId(c.sgd.group, n)})
  {
    hide ReplicationArms, ArmIds, GroupEffects;
    var arms := ReplicationArms(input, c, n).value;
    var after, next := AfterReplications(input, c, before, n), AfterReplications(input, c, before, n + 1);
    assert GroupReplications(c, n + 1) == GroupReplications(c, n) + [ReplicationId(c.sgd.group, n)];
    assert next.consumed.replications == after.consumed.replications + {ReplicationId(c.sgd.group, n)};
    ArmIdsAppend(GroupArms(input, c, n), arms.0, arms.1);
    assert next.consumed.arms == after.consumed.arms + {arms.1.id, arms.0.id};
  }

  lemma ReplicationUnused(input: Input, c: Comparison, before: Prefix, n: nat)
    requires ProperComparison(c) && GroupUnused(before.consumed, c.sgd.group) && AllObserved(input, c, n + 1)
    ensures var arms := ReplicationArms(input, c, n).value;
      var after := AfterReplications(input, c, before, n).consumed;
      ReplicationId(c.sgd.group, n) !in after.replications && arms.0.id !in after.arms && arms.1.id !in after.arms
  {
    hide ReplicationArms, GroupArms, GroupEffects;
    ReplicationShape(input, c, n);
    GroupArmReplications(input, c, n);
  }

  /** One replication of an unused group is consumed without an objection. */
  lemma ReplicationConsumes(input: Input, c: Comparison, before: Prefix, n: nat)
    requires ProperComparison(c) && GroupUnused(before.consumed, c.sgd.group) && AllObserved(input, c, n + 1)
    ensures var arms := ReplicationArms(input, c, n).value;
      var after := AfterReplications(input, c, before, n);
      Consume(after.consumed, GroupFor(c), ReplicationId(c.sgd.group, n), ReplicationSeed(c.sgd.group, n), arms.1, arms.0)
        == (AfterReplications(input, c, before, n + 1).consumed,
            Ok(EffectFrom(GroupFor(c), ReplicationId(c.sgd.group, n), ReplicationSeed(c.sgd.group, n), arms.1, arms.0)))
  {
    hide ReplicationArms, AfterReplications, GroupUnused, ArmProblem, EffectFrom;
    ReplicationShape(input, c, n);
    ReplicationUnused(input, c, before, n);
    ConsumedGrows(input, c, before, n);
  }

  lemma ArmIdsAppend(arms: seq<CalibrationArm>, x: CalibrationArm, y: CalibrationArm)
    ensures ArmIds(arms + [x, y]) == ArmIds(arms) + {x.id, y.id}
  {
    assert forall a :: a in arms + [x, y] <==> a in arms || a == x || a == y;
    assert x in arms + [x, y] && y in arms + [x, y];
  }

  /** The arms of one replication fit each other. */
  lemma ReplicationShape(input: Input, c: Comparison, n: nat)
    requires ProperComparison(c) && ReplicationArms(input, c, n).Ok?
    ensures var arms := ReplicationArms(input, c, n).value;
      var group, id, seed := GroupFor(c), ReplicationId(c.sgd.group, n), ReplicationSeed(c.sgd.group, n);
      && arms.0.arm == SGD && arms.1.arm == ADAM
      && arms.0.id.replication == id && arms.1.id.replication == id && arms.0.id != arms.1.id
      && ArmProblem(group, id, seed, arms.0).None? && ArmProblem(group, id, seed, arms.1).None?
      && arms.0.sharedKey == arms.1.sharedKey && arms.0.noiseKey != arms.1.noiseKey
      && arms.0.cost >= 0.0 && arms.1.cost >= 0.0
  {
    DistinctArmNames();
  }

  lemma DistinctArmNames()
    ensures SGD != ADAM
  {
    assert |SGD| != |ADAM|;
  }

  lemma {:induction false} GroupArmReplications(input: Input, c: Comparison, n: nat)
    requires ProperComparison(c) && AllObserved(input, c, n)
    ensures forall a :: a in GroupArms(input, c, n) ==>
      a.id.replication.comparisonGroup == c.sgd.group && a.id.replication.index < n && a.group == GroupId(c.sgd.group)
    ensures forall i, j :: 0 <= i < j < |GroupArms(input, c, n)| ==> GroupArms(input, c, n)[i].id != GroupArms(input, c, n)[j].id
  {
    hide ReplicationArms;
    if n > 0 {
      GroupArmReplications(input, c, n - 1);
      ReplicationShape(input, c, n - 1);
    }
  }

  /** The inner loop succeeds exactly when every replication can be observed, and adds the group, its
      arms, its effects and their identifiers. */
  lemma {:induction false} ReplicatedExact(input: Input, c: Comparison, before: Prefix, n: nat)
    requires ProperComparison(c) && GroupUnused(before.consumed, c.sgd.group)
    ensures Replicated(input, c, before, n).Ok? <==> AllObserved(input, c, n)
    ensures AllObserved(input, c, n) ==> Replicated(input, c, before, n) == Ok(AfterReplications(input, c, before, n))
  {
    hide ReplicationArms, Consume, GroupUnused, AfterReplications, EffectFrom;
    if n == 0 {
      AfterNone(input, c, before);
    } else {
      ReplicatedExact(input, c, before, n - 1);
      if AllObserved(input, c, n) {
        ReplicationConsumes(input, c, before, n - 1);
        AfterOneMore(input, c, before, n - 1);
      }
    }
  }

  lemma AfterNone(input: Input, c: Comparison, before: Prefix)
    ensures AfterReplications(input, c, before, 0) == before.(groups := before.groups + [GroupFor(c)])
  {
    assert before.replications + GroupReplications(c, 0) == before.replications;
    assert before.arms + GroupArms(input, c, 0) == before.arms && before.effects + GroupEffects(input, c, 0) == before.effects;
    assert before.consumed.arms + ArmIds(GroupArms(input, c, 0)) == before.consumed.arms;
    assert before.consumed.replications + (set r | r in GroupReplications(c, 0)) == before.consumed.replications;
  }

  lemma AfterOneMore(input: Input, c: Comparison, before: Prefix, n: nat)
    requires AllObserved(input, c, n + 1)
    ensures var arms := ReplicationArms(input, c, n).value;
      var after, next := AfterReplications(input, c, before, n), AfterReplications(input, c, before, n + 1);
      && next.groups == after.groups
      && next.replications == after.replications + [ReplicationId(c.sgd.group, n)]
      && next.arms == after.arms + [arms.0, arms.1]
      && next.effects == after.effects
           + [EffectFrom(GroupFor(c), ReplicationId(c.sgd.group, n), ReplicationSeed(c.sgd.group, n), arms.1, arms.0)]
  {
    hide ReplicationArms, EffectFrom;
    assert GroupReplications(c, n + 1) == GroupReplications(c, n) + [ReplicationId(c.sgd.group, n)];
  }

  // ----- the whole prefix -----

  /** Every key has one design per arm. */
  ghost predicate Complete(input: Input, keys: seq<ComparisonKey>) {
    forall k :: 0 <= k < |keys| ==> ComparisonOf(input.designs, keys[k]).Some?
  }

  function Comparisons(input: Input, keys: seq<ComparisonKey>): (r: seq<Comparison>)
    requires Complete(input, keys)
    ensures |r| == |keys|
  {
    seq(|keys|, k requires 0 <= k < |keys| => ComparisonOf(input.designs, keys[k]).value)
  }

  ghost predicate GroupsDistinct(cs: seq<Comparison>) {
    forall i, j :: 0 <= i < j < |cs| ==> cs[i].sgd.group != cs[j].sgd.group
  }

  ghost predicate AllGroupsObserved(input: Input, cs: seq<Comparison>) {
    forall k :: 0 <= k < |cs| ==> AllObserved(input, cs[k], CALIBRATION_EFFECT_COUNT)
  }

  function Assembled(input: Input, cs: seq<Comparison>): Prefix
    requires AllGroupsObserved(input, cs)
  {
    if |cs| == 0 then Prefix([], [], [], [], Consumed({}, {}))
    else AfterReplications(input, cs[|cs| - 1], Assembled(input, cs[..|cs| - 1]), CALIBRATION_EFFECT_COUNT)
  }

  lemma ComparisonMembers(designs: seq<Design>, key: ComparisonKey)
    requires ComparisonOf(designs, key).Some?
    ensures var c := ComparisonOf(designs, key).value;
      && ProperComparison(c) && c.sgd in designs && c.adam in designs
      && c.sgd.IsOptimizerEffect() && c.sgd.Key() == key && c.adam.Key() == key
  {
    var keep := (d: Design) => d.IsOptimizerEffect() && d.Key() == key;
    FilteredMembers(designs, keep);
    var group := DesignsOf(designs, key);
    assert group[0] in group && group[1] in group;
  }

  lemma {:induction false} AssembledUnused(input: Input, cs: seq<Comparison>, group: string)
    requires AllGroupsObserved(input, cs) && forall k :: 0 <= k < |cs| ==> ProperComparison(cs[k])
    ensures GroupUnused(Assembled(input, cs).consumed, group) <==> forall k :: 0 <= k < |cs| ==> cs[k].sgd.group != group
    ensures !GroupUnused(Assembled(input, cs).consumed, group) ==>
      ReplicationId(group, 0) in Assembled(input, cs).consumed.replications
  {
    hide ReplicationArms, GroupArms, GroupEffects, ProperComparison;
    if |cs| > 0 {
      var n := |cs| - 1;
      AssembledUnused(input, cs[..n], group);
      var before := Assembled(input, cs[..n]).consumed;
      GroupArmReplications(input, cs[n], CALIBRATION_EFFECT_COUNT);
      assert GroupReplications(cs[n], CALIBRATION_EFFECT_COUNT)[0] == ReplicationId(cs[n].sgd.group, 0);
      assert ReplicationId(cs[n].sgd.group, 0) in Assembled(input, cs).consumed.replications;
      if cs[n].sgd.group != group {
        assert GroupUnused(Assembled(input, cs).consumed, group) <==> GroupUnused(before, group) by {
          UnusedAfter(input, cs[n], Assembled(input, cs[..n]), group);
        }
      }
    }
  }

  lemma UnusedAfter(input: Input, c: Comparison, before: Prefix, group: string)
    requires ProperComparison(c) && AllObserved(input, c, CALIBRATION_EFFECT_COUNT) && c.sgd.group != group
    ensures GroupUnused(AfterReplications(input, c, before, CALIBRATION_EFFECT_COUNT).consumed, group)
      <==> GroupUnused(before.consumed, group)
  {
    hide ReplicationArms, GroupArms, GroupEffects;
    GroupArmReplications(input, c, CALIBRATION_EFFECT_COUNT);
  }

  lemma RepeatedGroupFails(input: Input, c: Comparison, before: Prefix, n: nat)
    requires n > 0 && ReplicationId(c.sgd.group, 0) in before.consumed.replications
    ensures Replicated(input, c, before, n).Err?
  {
    assert Replicated(input, c, before, 1).Err? by {
      hide ReplicationArms;
    }
    ReplicationFailureStays(input, c, before, 1, n);
  }

  /** The outer loop succeeds exactly when every key has one design per arm, every replication can be
      observed, and no two keys share a comparison group. */
  lemma {:induction false} GroupedExact(input: Input, keys: seq<ComparisonKey>)
    ensures Grouped(input, keys).Ok? <==>
      Complete(input, keys) && AllGroupsObserved(input, Comparisons(input, keys)) && GroupsDistinct(Comparisons(input, keys))
    ensures Grouped(input, keys).Ok? ==> Grouped(input, keys) == Ok(Assembled(input, Comparisons(input, keys)))
  {
    hide ComparisonOf, ReplicationArms, Replicated, AfterReplications, AllObserved;
    if |keys| > 0 {
      var n := |keys| - 1;
      var before := keys[..n];
      GroupedExact(input, before);
      if Grouped(input, before).Ok? && ComparisonOf(input.designs, keys[n]).Some? {
        assert Complete(input, keys);
        var cs, c := Comparisons(input, keys), ComparisonOf(input.designs, keys[n]).value;
        assert cs[..n] == Comparisons(input, before) && cs[n] == c;
        forall k | 0 <= k < |keys| ensures ProperComparison(cs[k]) {
          ComparisonMembers(input.designs, keys[k]);
        }
        AssembledUnused(input, cs[..n], c.sgd.group);
        var parts := Assembled(input, cs[..n]);
        if GroupUnused(parts.consumed, c.sgd.group) {
          ReplicatedExact(input, c, parts, CALIBRATION_EFFECT_COUNT);
        } else {
          RepeatedGroupFails(input, c, parts, CALIBRATION_EFFECT_COUNT);
        }
      } else if Complete(input, keys) {
        assert Comparisons(input, keys)[..n] == Comparisons(input, before);
        PrefixConditions(input, keys);
      }
    } else {
      assert Comparisons(input, keys) == [];
    }
  }

  lemma PrefixConditions(input: Input, keys: seq<ComparisonKey>)
    requires |keys| > 0 && Complete(input, keys)
    ensures var n := |keys| - 1;
      && Complete(input, keys[..n]) && ComparisonOf(input.designs, keys[n]).Some?
      && (AllGroupsObserved(input, Comparisons(input, keys)) ==> AllGroupsObserved(input, Comparisons(input, keys[..n])))
      && (GroupsDistinct(Comparisons(input, keys)) ==> GroupsDistinct(Comparisons(input, keys[..n])))
  {
    hide ComparisonOf, AllObserved;
    assert Comparisons(input, keys)[..|keys| - 1] == Comparisons(input, keys[..|keys| - 1]);
  }

  // ----- counts, cost and completeness -----

  function ArmsOf(arms: seq<CalibrationArm>, group: GroupId): seq<CalibrationArm> {
    Filtered(arms, (a: CalibrationArm) => a.group == group)
  }

  /** The cost of running one comparison's two candidates once. */
  function PairCost(input: Input, c: Comparison): real
    requires c.sgd.candidateId in input.candidates && c.adam.candidateId in input.candidates
  {
    input.cost(input.candidates[c.sgd.candidateId]) + input.cost(input.candidates[c.adam.candidateId])
  }

  lemma ObservedCandidates(input: Input, c: Comparison, n: nat)
    requires AllObserved(input, c, n) && n > 0
    ensures c.sgd.candidateId in input.candidates && c.adam.candidateId in input.candidates
  {
    assert ReplicationArms(input, c, 0).Ok?;
  }

  lemma {:induction false} GroupCost(input: Input, c: Comparison, n: nat)
    requires AllObserved(input, c, n) && c.sgd.candidateId in input.candidates && c.adam.candidateId in input.candidates
    ensures Sum(Costs(GroupArms(input, c, n))) == n as real * PairCost(input, c)
    ensures AllNonNegative(Costs(GroupArms(input, c, n)))
  {
    hide ReplicationArms, Sum, PairCost;
    if n == 0 {
      assert Costs(GroupArms(input, c, 0)) == [];
      SumConstant([], 0.0);
    } else {
      GroupCost(input, c, n - 1);
      ReplicationCost(input, c, n - 1);
      var before, arms := GroupArms(input, c, n - 1), ReplicationArms(input, c, n - 1).value;
      assert Costs(GroupArms(input, c, n)) == Costs(before) + [arms.0.cost] + [arms.1.cost];
      SumAppend(Costs(before), arms.0.cost);
      SumAppend(Costs(before) + [arms.0.cost], arms.1.cost);
      OneMore(n, PairCost(input, c));
    }
  }

  lemma ReplicationCost(input: Input, c: Comparison, i: nat)
    requires ReplicationArms(input, c, i).Ok? && c.sgd.candidateId in input.candidates && c.adam.candidateId in input.candidates
    ensures var arms := ReplicationArms(input, c, i).value;
      arms.0.cost >= 0.0 && arms.1.cost >= 0.0 && arms.0.cost + arms.1.cost == PairCost(input, c)
  {
  }

  lemma OneMore(n: nat, x: real)
    requires n > 0
    ensures (n - 1) as real * x + x == n as real * x
  {
  }

  /** The summed costs of the grouped candidates. */
  function TotalPairCost(input: Input, cs: seq<Comparison>): real {
    if |cs| == 0 then 0.0
    else
      var c := cs[|cs| - 1];
      TotalPairCost(input, cs[..|cs| - 1])
        + (if c.sgd.candidateId in input.candidates && c.adam.candidateId in input.candidates then PairCost(input, c) else 0.0)
  }

  lemma AfterLists(input: Input, c: Comparison, before: Prefix)
    requires AllObserved(input, c, CALIBRATION_EFFECT_COUNT)
    ensures var after := AfterReplications(input, c, before, CALIBRATION_EFFECT_COUNT);
      && after.arms == before.arms + GroupArms(input, c, CALIBRATION_EFFECT_COUNT)
      && after.effects == before.effects + GroupEffects(input, c, CALIBRATION_EFFECT_COUNT)
  {
    hide GroupArms, GroupEffects;
  }

  /** The calibration cost is five times the summed costs of the grouped candidates. */
  lemma {:induction false} AssembledCost(input: Input, cs: seq<Comparison>)
    requires AllGroupsObserved(input, cs)
    ensures Sum(Costs(Assembled(input, cs).arms)) == CALIBRATION_EFFECT_COUNT as real * TotalPairCost(input, cs)
    ensures AllNonNegative(Costs(Assembled(input, cs).arms))
  {
    hide AllObserved, PairCost, AfterReplications, Sum;
    if |cs| == 0 {
      SumConstant(Costs([]), 0.0);
    } else {
      var n := |cs| - 1;
      var before, c := Assembled(input, cs[..n]), cs[n];
      AfterLists(input, c, before);
      AssembledCost(input, cs[..n]);
      ObservedCandidates(input, c, CALIBRATION_EFFECT_COUNT);
      GroupCost(input, c, CALIBRATION_EFFECT_COUNT);
      var more := GroupArms(input, c, CALIBRATION_EFFECT_COUNT);
      assert Costs(before.arms + more) == Costs(before.arms) + Costs(more);
      SumConcat(Costs(before.arms), Costs(more));
    }
  }

  lemma {:induction false} GroupEffectsShape(input: Input, c: Comparison, n: nat)
    requires AllObserved(input, c, n)
    ensures forall i :: 0 <= i < n ==>
      && GroupEffects(input, c, n)[i].group == GroupId(c.sgd.group)
      && GroupEffects(input, c, n)[i].comparisonGroup == c.sgd.group
      && GroupEffects(input, c, n)[i].replication == ReplicationId(c.sgd.group, i)
      && GroupEffects(input, c, n)[i].seed == ReplicationSeed(c.sgd.group, i)
      && GroupEffects(input, c, n)[i].id.replication == GroupReplications(c, n)[i]
  {
    hide ReplicationArms;
    if n > 0 {
      GroupEffectsShape(input, c, n - 1);
    }
  }

  /** Effect `i` was computed from replication `i`. */
  lemma {:induction false} AssembledEffectIds(input: Input, cs: seq<Comparison>)
    requires AllGroupsObserved(input, cs)
    ensures var p := Assembled(input, cs);
      |p.effects| == |p.replications| && forall i :: 0 <= i < |p.effects| ==> p.effects[i].id.replication == p.replications[i]
  {
    hide AllObserved, GroupEffects, GroupArms, GroupReplications;
    if |cs| > 0 {
      var n := |cs| - 1;
      AssembledEffectIds(input, cs[..n]);
      GroupEffectsShape(input, cs[n], CALIBRATION_EFFECT_COUNT);
    }
  }

  lemma EffectIdsDistinct(input: Input, cs: seq<Comparison>)
    requires AllGroupsObserved(input, cs) && ConsumedExactlyOnce(Assembled(input, cs))
    ensures EffectsDistinct(Assembled(input, cs))
  {
    hide Assembled;
    AssembledEffectIds(input, cs);
  }

  /** Effects and arms of a group are those of its own comparison: five and ten of them. */
  lemma {:induction false} AssembledGroups(input: Input, cs: seq<Comparison>, group: string)
    requires AllGroupsObserved(input, cs) && GroupsDistinct(cs) && forall k :: 0 <= k < |cs| ==> ProperComparison(cs[k])
    ensures forall k :: 0 <= k < |cs| && cs[k].sgd.group == group ==>
      && EffectsOf(Assembled(input, cs).effects, GroupId(group)) == GroupEffects(input, cs[k], CALIBRATION_EFFECT_COUNT)
      && ArmsOf(Assembled(input, cs).arms, GroupId(group)) == GroupArms(input, cs[k], CALIBRATION_EFFECT_COUNT)
    ensures (forall k :: 0 <= k < |cs| ==> cs[k].sgd.group != group) ==>
      EffectsOf(Assembled(input, cs).effects, GroupId(group)) == [] && ArmsOf(Assembled(input, cs).arms, GroupId(group)) == []
  {
    hide AllObserved, AfterReplications, ProperComparison, EffectsOf, ArmsOf, GroupArms, GroupEffects;
    if |cs| == 0 {
      NothingFiltered(group);
    } else {
      var n := |cs| - 1;
      var before, c := Assembled(input, cs[..n]), cs[n];
      AfterLists(input, c, before);
      AssembledGroups(input, cs[..n], group);
      GroupFiltered(input, c, group);
      EffectsConcat(before.effects, GroupEffects(input, c, CALIBRATION_EFFECT_COUNT), GroupId(group));
      ArmsConcat(before.arms, GroupArms(input, c, CALIBRATION_EFFECT_COUNT), GroupId(group));
    }
  }

  lemma EffectsConcat(a: seq<CalibrationEffect>, b: seq<CalibrationEffect>, group: GroupId)
    ensures EffectsOf(a + b, group) == EffectsOf(a, group) + EffectsOf(b, group)
  {
    hide Filtered;
    FilteredConcat(a, b, (e: CalibrationEffect) => e.group == group);
  }

  lemma ArmsConcat(a: seq<CalibrationArm>, b: seq<CalibrationArm>, group: GroupId)
    ensures ArmsOf(a + b, group) == ArmsOf(a, group) + ArmsOf(b, group)
  {
    hide Filtered;
    FilteredConcat(a, b, (x: CalibrationArm) => x.group == group);
  }

  lemma NothingFiltered(group: string)
    ensures EffectsOf([], GroupId(group)) == [] && ArmsOf([], GroupId(group)) == []
  {
  }

  lemma GroupFiltered(input: Input, c: Comparison, group: string)
    requires AllObserved(input, c, CALIBRATION_EFFECT_COUNT) && ProperComparison(c)
    ensures EffectsOf(GroupEffects(input, c, CALIBRATION_EFFECT_COUNT), GroupId(group))
      == (if c.sgd.group == group then GroupEffects(input, c, CALIBRATION_EFFECT_COUNT) else [])
    ensures ArmsOf(GroupArms(input, c, CALIBRATION_EFFECT_COUNT), GroupId(group))
      == (if c.sgd.group == group then GroupArms(input, c, CALIBRATION_EFFECT_COUNT) else [])
  {
    hide ReplicationArms, GroupArms, GroupEffects, Filtered;
    GroupEffectsShape(input, c, CALIBRATION_EFFECT_COUNT);
    GroupArmReplications(input, c, CALIBRATION_EFFECT_COUNT);
    FilteredUniform(GroupEffects(input, c, CALIBRATION_EFFECT_COUNT), (e: CalibrationEffect) => e.group == GroupId(group));
    FilteredUniform(GroupArms(input, c, CALIBRATION_EFFECT_COUNT), (a: CalibrationArm) => a.group == GroupId(group));
  }

  /** Everything the prefix lists has been consumed, nothing else has, and nothing twice. */
  ghost predicate ConsumedExactlyOnce(p: Prefix) {
    && p.consumed.replications == (set r | r in p.replications)
    && p.consumed.arms == ArmIds(p.arms)
    && Distinct(p.replications)
    && (forall i, j :: 0 <= i < j < |p.arms| ==> p.arms[i].id != p.arms[j].id)
  }

  /** No two effects share an identifier. */
  predicate EffectsDistinct(p: Prefix) {
    forall i, j :: 0 <= i < j < |p.effects| ==> p.effects[i].id != p.effects[j].id
  }

  lemma {:induction false} AssembledConsumption(input: Input, cs: seq<Comparison>)
    requires AllGroupsObserved(input, cs) && GroupsDistinct(cs) && forall k :: 0 <= k < |cs| ==> ProperComparison(cs[k])
    ensures ConsumedExactlyOnce(Assembled(input, cs))
    ensures var p := Assembled(input, cs);
      && |p.groups| == |cs| && (forall k :: 0 <= k < |cs| ==> p.groups[k] == GroupFor(cs[k]))
      && |p.replications| == |p.effects| == CALIBRATION_EFFECT_COUNT * |cs|
      && |p.arms| == 2 * CALIBRATION_EFFECT_COUNT * |cs|
  {
    hide AllObserved, AfterReplications, ConsumedExactlyOnce, ProperComparison, GroupFor, GroupUnused;
    if |cs| == 0 {
      NothingConsumed();
    } else {
      var n := |cs| - 1;
      AssembledConsumption(input, cs[..n]);
      AssembledUnused(input, cs[..n], cs[n].sgd.group);
      ConsumptionGrows(input, cs[n], Assembled(input, cs[..n]));
      AfterLengths(input, cs[n], Assembled(input, cs[..n]));
    }
  }

  lemma NothingConsumed()
    ensures ConsumedExactlyOnce(Prefix([], [], [], [], Consumed({}, {})))
  {
  }

  lemma AfterLengths(input: Input, c: Comparison, before: Prefix)
    requires AllObserved(input, c, CALIBRATION_EFFECT_COUNT)
    ensures var after := AfterReplications(input, c, before, CALIBRATION_EFFECT_COUNT);
      && after.groups == before.groups + [GroupFor(c)]
      && |after.replications| == |before.replications| + CALIBRATION_EFFECT_COUNT
      && |after.effects| == |before.effects| + CALIBRATION_EFFECT_COUNT
      && |after.arms| == |before.arms| + 2 * CALIBRATION_EFFECT_COUNT
  {
    hide GroupArms, GroupEffects;
  }

  lemma ConsumptionGrows(input: Input, c: Comparison, before: Prefix)
    requires AllObserved(input, c, CALIBRATION_EFFECT_COUNT) && ProperComparison(c)
    requires ConsumedExactlyOnce(before) && GroupUnused(before.consumed, c.sgd.group)
    ensures ConsumedExactlyOnce(AfterReplications(input, c, before, CALIBRATION_EFFECT_COUNT))
  {
    hide ReplicationArms, GroupArms, GroupEffects;
    GroupArmReplications(input, c, CALIBRATION_EFFECT_COUNT);
    var more, ids := GroupArms(input, c, CALIBRATION_EFFECT_COUNT), GroupReplications(c, CALIBRATION_EFFECT_COUNT);
    assert (set r | r in before.replications + ids) == (set r | r in before.replications) + (set r | r in ids);
    ArmIdsConcat(before.arms, more);
    forall i | 0 <= i < |before.replications| ensures before.replications[i].comparisonGroup != c.sgd.group {
      assert before.replications[i] in before.consumed.replications;
    }
    forall i | 0 <= i < |before.arms| ensures before.arms[i].id.replication.comparisonGroup != c.sgd.group {
      assert before.arms[i].id in ArmIds(before.arms);
    }
    forall j | 0 <= j < |more| ensures more[j].id.replication.comparisonGroup == c.sgd.group {
      assert more[j] in more;
    }
  }

  lemma ArmIdsConcat(a: seq<CalibrationArm>, b: seq<CalibrationArm>)
    ensures ArmIds(a + b) == ArmIds(a) + ArmIds(b)
  {
    assert forall x :: x in a + b <==> x in a || x in b;
  }

  lemma AssembledComplete(input: Input, cs: seq<Comparison>)
    requires AllGroupsObserved(input, cs) && GroupsDistinct(cs) && forall k :: 0 <= k < |cs| ==> ProperComparison(cs[k])
    ensures CompleteGroups(Assembled(input, cs))
  {
    hide AllObserved, GroupEffects, GroupArms, ProperComparison, Assembled, EffectsOf;
    AssembledConsumption(input, cs);
    var p := Assembled(input, cs);
    forall k | 0 <= k < |cs|
      ensures p.groups[k].id == GroupId(cs[k].sgd.group)
      ensures EffectsOf(p.effects, p.groups[k].id) == GroupEffects(input, cs[k], CALIBRATION_EFFECT_COUNT)
    {
      AssembledGroups(input, cs, cs[k].sgd.group);
    }
    forall k | 0 <= k < |cs|
      ensures forall a, b :: 0 <= a < b < CALIBRATION_EFFECT_COUNT ==>
        && GroupEffects(input, cs[k], CALIBRATION_EFFECT_COUNT)[a].replication != GroupEffects(input, cs[k], CALIBRATION_EFFECT_COUNT)[b].replication
        && GroupEffects(input, cs[k], CALIBRATION_EFFECT_COUNT)[a].seed != GroupEffects(input, cs[k], CALIBRATION_EFFECT_COUNT)[b].seed
    {
      GroupEffectsShape(input, cs[k], CALIBRATION_EFFECT_COUNT);
    }
  }

  /** The exact condition for a prefix to be built: at least one optimizer comparison, one design per arm
      in each, every replication observable, and no two comparisons of one group. */
  ghost predicate Buildable(input: Input) {
    var keys := SortedKeys(input);
    |keys| > 0 && Complete(input, keys)
    && AllGroupsObserved(input, Comparisons(input, keys)) && GroupsDistinct(Comparisons(input, keys))
  }

  /** What a successful build has done: every comparison has its own five effects and ten arms, every
      arm and replication was consumed exactly once, and the cost is five times that of the pairs. */
  ghost predicate BuiltExactly(input: Input, prefix: CalibrationPrefix)
    requires Buildable(input)
  {
    var cs, p := Comparisons(input, SortedKeys(input)), prefix.parts;
    && ConsumedExactlyOnce(p) && EffectsDistinct(p)
    && |p.groups| == |cs| && |p.replications| == |p.effects| == CALIBRATION_EFFECT_COUNT * |cs|
    && |p.arms| == 2 * CALIBRATION_EFFECT_COUNT * |cs|
    && (forall k :: 0 <= k < |cs| ==>
          && p.groups[k] == GroupFor(cs[k])
          && EffectsOf(p.effects, p.groups[k].id) == GroupEffects(input, cs[k], CALIBRATION_EFFECT_COUNT)
          && ArmsOf(p.arms, p.groups[k].id) == GroupArms(input, cs[k], CALIBRATION_EFFECT_COUNT))
    && prefix.cost == CALIBRATION_EFFECT_COUNT as real * TotalPairCost(input, cs)
  }

  lemma BuildExact(input: Input)
    ensures BuildPrefix(input).Ok? <==> Buildable(input)
    ensures BuildPrefix(input).Ok? ==> BuiltExactly(input, BuildPrefix(input).value)
  {
    hide SortedKeys, ComparisonOf, AllObserved, ReplicationArms, Assembled, CompleteGroups, ConsumedExactlyOnce, GroupEffects, GroupArms,
      EffectsOf, ArmsOf, Grouped, ProperComparison, TotalPairCost, Sum, EffectsDistinct;
    var keys := SortedKeys(input);
    GroupedExact(input, keys);
    if |keys| > 0 && Grouped(input, keys).Ok? {
      var cs := Comparisons(input, keys);
      forall k | 0 <= k < |cs| ensures ProperComparison(cs[k]) {
        ComparisonMembers(input.designs, keys[k]);
      }
      AssembledConsumption(input, cs);
      EffectIdsDistinct(input, cs);
      AssembledComplete(input, cs);
      AssembledCost(input, cs);
      SumNonNegative(Costs(Assembled(input, cs).arms));
      forall k | 0 <= k < |cs|
        ensures EffectsOf(Assembled(input, cs).effects, GroupId(cs[k].sgd.group)) == GroupEffects(input, cs[k], CALIBRATION_EFFECT_COUNT)
        ensures ArmsOf(Assembled(input, cs).arms, GroupId(cs[k].sgd.group)) == GroupArms(input, cs[k], CALIBRATION_EFFECT_COUNT)
      {
        AssembledGroups(input, cs, cs[k].sgd.group);
      }
    }
  }

  lemma BuiltEffectsDistinct(input: Input)
    requires BuildPrefix(input).Ok?
    ensures EffectsDistinct(BuildPrefix(input).value.parts)
  {
    hide BuildPrefix, Buildable, ConsumedExactlyOnce, EffectsDistinct, GroupEffects, GroupArms, TotalPairCost;
    BuildExact(input);
  }

  /** Two comparisons of one group cannot be calibrated together, whatever else is right. */
  lemma SharedGroupStopsTheBuild(input: Input, i: nat, j: nat)
    requires i < j < |SortedKeys(input)| && Complete(input, SortedKeys(input))
    requires SortedKeys(input)[i].group == SortedKeys(input)[j].group
    ensures BuildPrefix(input).Err?
  {
    hide SortedKeys, AllObserved, BuildPrefix;
    var keys := SortedKeys(input);
    BuildExact(input);
    ComparisonMembers(input.designs, keys[i]);
    ComparisonMembers(input.designs, keys[j]);
    hide ComparisonOf;
    assert Comparisons(input, keys)[i].sgd.group == Comparisons(input, keys)[j].sgd.group;
  }
}
