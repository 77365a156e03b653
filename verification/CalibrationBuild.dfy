/** When a calibration prefix is built, said of the registered designs and of the hidden world alone, and what
    it then records, place by place. */
module CalibrationBuild {
  import opened Wrappers
  import opened RealSums
  import opened Ordering
  import opened EvidenceEligibility
  import opened Calibration
  import opened CalibrationMeaning

  // ----- the designs of a comparison -----

  predicate InComparison(d: Design, key: ComparisonKey, arm: string) {
    d.IsOptimizerEffect() && d.Key() == key && d.arm == arm
  }

  predicate OnlyDesignAt(designs: seq<Design>, key: ComparisonKey, arm: string, i: int) {
    forall j :: 0 <= j < |designs| ==> (InComparison(designs[j], key, arm) <==> j == i)
  }

  /** Exactly one design belongs to this arm of the comparison, and it is `d`. */
  ghost predicate TheDesign(designs: seq<Design>, key: ComparisonKey, arm: string, d: Design) {
    exists i :: 0 <= i < |designs| && designs[i] == d && OnlyDesignAt(designs, key, arm, i)
  }

  function ArmDesigns(designs: seq<Design>, key: ComparisonKey, arm: string): seq<Design> {
    Filtered(designs, (d: Design) => InComparison(d, key, arm))
  }

  lemma {:induction false} OneDesign(designs: seq<Design>, key: ComparisonKey, arm: string, d: Design)
    ensures ArmDesigns(designs, key, arm) == [d] <==> TheDesign(designs, key, arm, d)
  {
    if |designs| > 0 {
      var n := |designs| - 1;
      var keep := (d: Design) => InComparison(d, key, arm);
      if InComparison(designs[n], key, arm) {
        FilteredMembers(designs[..n], keep);
        LastDesign(designs, key, arm, d);
        var rest := ArmDesigns(designs[..n], key, arm);
        assert ArmDesigns(designs, key, arm) == rest + [designs[n]];
        if |rest| > 0 {
          assert rest[0] in rest && rest[0] in designs[..n] && InComparison(rest[0], key, arm);
          assert |rest + [designs[n]]| > |[d]|;
        } else {
          assert rest + [designs[n]] == [designs[n]];
          assert forall x :: x in designs[..n] ==> !InComparison(x, key, arm);
          assert [designs[n]] == [d] <==> designs[n] == d;
        }
      } else {
        OneDesign(designs[..n], key, arm, d);
        NotLastDesign(designs, key, arm, d);
      }
    }
  }

  lemma LastDesign(designs: seq<Design>, key: ComparisonKey, arm: string, d: Design)
    requires |designs| > 0 && InComparison(designs[|designs| - 1], key, arm)
    ensures TheDesign(designs, key, arm, d) <==>
      designs[|designs| - 1] == d && forall x :: x in designs[..|designs| - 1] ==> !InComparison(x, key, arm)
  {
    var n := |designs| - 1;
    if TheDesign(designs, key, arm, d) {
      var i :| 0 <= i < |designs| && designs[i] == d && OnlyDesignAt(designs, key, arm, i);
      assert i == n;
      forall x | x in designs[..n] ensures !InComparison(x, key, arm) {
        var j :| 0 <= j < n && designs[j] == x;
      }
    }
    if designs[n] == d && forall x :: x in designs[..n] ==> !InComparison(x, key, arm) {
      forall j | 0 <= j < n ensures !InComparison(designs[j], key, arm) {
        assert designs[..n][j] in designs[..n];
      }
      assert OnlyDesignAt(designs, key, arm, n);
    }
  }

  lemma NotLastDesign(designs: seq<Design>, key: ComparisonKey, arm: string, d: Design)
    requires |designs| > 0 && !InComparison(designs[|designs| - 1], key, arm)
    ensures TheDesign(designs, key, arm, d) <==> TheDesign(designs[..|designs| - 1], key, arm, d)
  {
    var n := |designs| - 1;
    if TheDesign(designs, key, arm, d) {
      var i :| 0 <= i < |designs| && designs[i] == d && OnlyDesignAt(designs, key, arm, i);
      assert designs[..n][i] == d && OnlyDesignAt(designs[..n], key, arm, i);
    }
    if TheDesign(designs[..n], key, arm, d) {
      var i :| 0 <= i < n && designs[..n][i] == d && OnlyDesignAt(designs[..n], key, arm, i);
      forall j | 0 <= j < |designs| ensures InComparison(designs[j], key, arm) <==> j == i {
        if j < n {
          assert designs[..n][j] == designs[j];
        }
      }
      assert designs[i] == d && OnlyDesignAt(designs, key, arm, i);
    }
  }

  lemma {:induction false} ArmsShare(designs: seq<Design>, key: ComparisonKey)
    ensures |DesignsOf(designs, key)| == |ArmDesigns(designs, key, SGD)| + |ArmDesigns(designs, key, ADAM)|
  {
    if |designs| > 0 {
      ArmsShare(designs[..|designs| - 1], key);
      ArmNames();
    }
  }

  lemma ArmMembersOf(designs: seq<Design>, key: ComparisonKey, d: Design)
    ensures d in DesignsOf(designs, key) <==> d in designs && d.IsOptimizerEffect() && d.Key() == key
    ensures d in ArmDesigns(designs, key, SGD) <==> d in designs && InComparison(d, key, SGD)
    ensures d in ArmDesigns(designs, key, ADAM) <==> d in designs && InComparison(d, key, ADAM)
  {
    FilteredMembers(designs, (d: Design) => d.IsOptimizerEffect() && d.Key() == key);
    FilteredMembers(designs, (d: Design) => InComparison(d, key, SGD));
    FilteredMembers(designs, (d: Design) => InComparison(d, key, ADAM));
  }

  /** A key has a comparison exactly when each of its two arms has one design, and it is of those two. */
  lemma ComparisonIsTheTwo(designs: seq<Design>, key: ComparisonKey, c: Comparison)
    ensures ComparisonOf(designs, key) == Some(c) <==>
      TheDesign(designs, key, SGD, c.sgd) && TheDesign(designs, key, ADAM, c.adam)
  {
    ArmsShare(designs, key);
    ArmNames();
    ArmMembersOf(designs, key, c.sgd);
    ArmMembersOf(designs, key, c.adam);
    OneDesign(designs, key, SGD, c.sgd);
    OneDesign(designs, key, ADAM, c.adam);
    hide TheDesign, Filtered;
    var group := DesignsOf(designs, key);
    hide DesignsOf, ArmDesigns;
    if ComparisonOf(designs, key) == Some(c) {
      assert group[0] in group && group[1] in group;
    }
    if ArmDesigns(designs, key, SGD) == [c.sgd] && ArmDesigns(designs, key, ADAM) == [c.adam] {
      assert c.sgd in ArmDesigns(designs, key, SGD) && c.adam in ArmDesigns(designs, key, ADAM);
      assert c.sgd in group && c.adam in group && |group| == 2;
    }
  }

  lemma {:induction false} KeysExact(designs: seq<Design>)
    ensures forall key :: key in DesignKeys(designs) <==> exists d :: d in designs && d.IsOptimizerEffect() && d.Key() == key
    ensures Distinct(DesignKeys(designs))
  {
    if |designs| > 0 {
      var n := |designs| - 1;
      KeysExact(designs[..n]);
      assert designs == designs[..n] + [designs[n]];
    }
  }

  /** The keys are those of the optimizer designs, each once, no later one sorting before an earlier one. */
  lemma SortedKeysExact(input: Input)
    ensures forall key :: key in SortedKeys(input) <==> exists d :: d in input.designs && d.IsOptimizerEffect() && d.Key() == key
    ensures Distinct(SortedKeys(input))
    ensures forall i, j :: 0 <= i < j < |SortedKeys(input)| ==>
      !StringLess(input.repr(SortedKeys(input)[j]), input.repr(SortedKeys(input)[i]))
  {
    var less := (a: ComparisonKey, b: ComparisonKey) => StringLess(input.repr(a), input.repr(b));
    KeysExact(input.designs);
    SortMembers(DesignKeys(input.designs), less);
    SortDistinct(DesignKeys(input.designs), less);
    ReprOrder(input);
    SortAscending(DesignKeys(input.designs), less);
  }

  lemma ReprOrder(input: Input)
    ensures StrictWeakOrder((a: ComparisonKey, b: ComparisonKey) => StringLess(input.repr(a), input.repr(b)))
  {
    StringOrder();
  }

  // ----- when it is built -----

  /** The hidden world shows the two candidates in this replication: both are given, their noise differs, and
      neither cost is negative. */
  predicate Observable(input: Input, sgd: Design, adam: Design, index: nat) {
    && sgd.candidateId in input.candidates && adam.candidateId in input.candidates
    && var x, y := input.candidates[sgd.candidateId], input.candidates[adam.candidateId];
    && var seen := input.observe(x, y, ReplicationId(sgd.group, index), ReplicationSeed(sgd.group, index));
    && seen.adamNoise != seen.sgdNoise && input.cost(x) >= 0.0 && input.cost(y) >= 0.0
  }

  lemma ObservedIff(input: Input, c: Comparison)
    ensures AllObserved(input, c, 5) <==> forall index: nat :: index < 5 ==> Observable(input, c.sgd, c.adam, index)
  {
    forall index: nat ensures ReplicationArms(input, c, index).Ok? <==> Observable(input, c.sgd, c.adam, index) {
    }
  }

  ghost predicate HasComparison(designs: seq<Design>, key: ComparisonKey) {
    exists sgd, adam :: TheDesign(designs, key, SGD, sgd) && TheDesign(designs, key, ADAM, adam)
  }

  lemma HasComparisonIff(designs: seq<Design>, key: ComparisonKey)
    ensures ComparisonOf(designs, key).Some? <==> HasComparison(designs, key)
  {
    hide ComparisonOf, TheDesign;
    if ComparisonOf(designs, key).Some? {
      ComparisonIsTheTwo(designs, key, ComparisonOf(designs, key).value);
    }
    if sgd, adam :| TheDesign(designs, key, SGD, sgd) && TheDesign(designs, key, ADAM, adam) {
      ComparisonIsTheTwo(designs, key, Comparison(sgd, adam));
    }
  }

  predicate SomeOptimizer(designs: seq<Design>) {
    exists d :: d in designs && d.IsOptimizerEffect()
  }

  /** Every optimizer comparison has one design in each arm. */
  ghost predicate AllCompared(designs: seq<Design>) {
    forall d :: d in designs && d.IsOptimizerEffect() ==> HasComparison(designs, d.Key())
  }

  ghost predicate AllObservable(input: Input) {
    forall sgd, adam, index: nat :: Opposed(input.designs, sgd, adam) && index < 5 ==> Observable(input, sgd, adam, index)
  }

  /** No comparison group has two comparisons. */
  predicate OneKeyPerGroup(designs: seq<Design>) {
    forall c, d :: c in designs && d in designs && c.IsOptimizerEffect() && d.IsOptimizerEffect() && c.group == d.group ==>
      c.Key() == d.Key()
  }

  /** A prefix is built if and only if there is an optimizer comparison, each has one design in each arm and can be
      observed five times, and no two share a comparison group. */
  lemma BuildSucceedsIff(input: Input)
    ensures BuildPrefix(input).Ok? <==>
      && SomeOptimizer(input.designs) && AllCompared(input.designs) && AllObservable(input) && OneKeyPerGroup(input.designs)
  {
    hide BuildPrefix, SortedKeys, ComparisonOf, AllGroupsObserved, GroupsDistinct, AllObservable, OneKeyPerGroup, HasComparison, BuiltExactly;
    BuildExact(input);
    SortedKeysExact(input);
    var keys := SortedKeys(input);
    if |keys| > 0 {
      assert keys[0] in keys;
    }
    if d :| d in input.designs && d.IsOptimizerEffect() {
      assert d.Key() in keys;
    }
    CompleteIff(input);
    if Complete(input, keys) {
      ObservableIff(input);
      GroupsDistinctIff(input);
    }
  }

  lemma CompleteIff(input: Input)
    ensures Complete(input, SortedKeys(input)) <==> AllCompared(input.designs)
  {
    hide SortedKeys, ComparisonOf, HasComparison;
    SortedKeysExact(input);
    var keys := SortedKeys(input);
    forall key ensures ComparisonOf(input.designs, key).Some? <==> HasComparison(input.designs, key) {
      HasComparisonIff(input.designs, key);
    }
    if Complete(input, keys) {
      forall d | d in input.designs && d.IsOptimizerEffect() ensures HasComparison(input.designs, d.Key()) {
        assert d.Key() in keys;
        var k :| 0 <= k < |keys| && keys[k] == d.Key();
      }
    }
    if AllCompared(input.designs) {
      forall k | 0 <= k < |keys| ensures ComparisonOf(input.designs, keys[k]).Some? {
        assert keys[k] in keys;
      }
    }
  }

  lemma ObservableIff(input: Input)
    requires Complete(input, SortedKeys(input))
    ensures AllGroupsObserved(input, Comparisons(input, SortedKeys(input))) <==> AllObservable(input)
  {
    hide SortedKeys, ComparisonOf, AllObserved, Opposed, Observable;
    var keys := SortedKeys(input);
    var cs := Comparisons(input, keys);
    forall k | 0 <= k < |cs|
      ensures AllObserved(input, cs[k], 5) <==> forall index: nat :: index < 5 ==> Observable(input, cs[k].sgd, cs[k].adam, index)
      ensures Opposed(input.designs, cs[k].sgd, cs[k].adam)
    {
      ObservedIff(input, cs[k]);
      OpposedDesigns(input, keys[k]);
    }
    if AllGroupsObserved(input, cs) {
      forall sgd, adam, index: nat | Opposed(input.designs, sgd, adam) && index < 5 ensures Observable(input, sgd, adam, index) {
        var k := ComparisonFound(input, keys, sgd, adam);
        assert AllObserved(input, cs[k], 5);
      }
    }
  }

  lemma GroupsDistinctIff(input: Input)
    requires Complete(input, SortedKeys(input))
    ensures GroupsDistinct(Comparisons(input, SortedKeys(input))) <==> OneKeyPerGroup(input.designs)
  {
    hide SortedKeys, ComparisonOf;
    SortedKeysExact(input);
    var keys := SortedKeys(input);
    var cs := Comparisons(input, keys);
    forall k | 0 <= k < |cs| ensures cs[k].sgd in input.designs && cs[k].sgd.IsOptimizerEffect() && cs[k].sgd.Key() == keys[k] {
      ComparisonMembers(input.designs, keys[k]);
    }
    if GroupsDistinct(cs) {
      forall c, d | c in input.designs && d in input.designs && c.IsOptimizerEffect() && d.IsOptimizerEffect() && c.group == d.group
        ensures c.Key() == d.Key()
      {
        assert c.Key() in keys && d.Key() in keys;
        var i :| 0 <= i < |keys| && keys[i] == c.Key();
        var j :| 0 <= j < |keys| && keys[j] == d.Key();
        assert cs[i].sgd.Key() == keys[i] && cs[j].sgd.Key() == keys[j];
        assert cs[i].sgd.group == keys[i].group == c.group && cs[j].sgd.group == keys[j].group == d.group;
      }
    }
    if OneKeyPerGroup(input.designs) {
      forall i, j | 0 <= i < j < |cs| ensures cs[i].sgd.group != cs[j].sgd.group {
        assert keys[i] != keys[j];
      }
    }
  }

  // ----- what it records -----

  /** What is recorded of one candidate in one replication. */
  predicate ArmShows(input: Input, group: string, d: Design, index: nat, observed: real, shared: string, noise: string, a: CalibrationArm) {
    && d.candidateId in input.candidates
    && var c := input.candidates[d.candidateId];
    && var replication := ReplicationId(group, index);
    && a == CalibrationArm(ArmId(replication, c.id, d.arm), GroupId(group), replication, ReplicationSeed(group, index), d.arm, d.controls,
                           observed, input.cost(c), shared, noise, true)
  }

  /** Replication `i` of comparison `k` in a prefix: both arms, SGD first, and their effect. */
  ghost predicate ReplicationAt(input: Input, c: Comparison, p: Prefix, k: nat, i: nat)
    requires 5 * k + i < |p.effects| && 5 * k + i < |p.replications| && 10 * k + 2 * i + 1 < |p.arms|
  {
    && c.sgd.candidateId in input.candidates && c.adam.candidateId in input.candidates
    && var seen := input.observe(input.candidates[c.sgd.candidateId], input.candidates[c.adam.candidateId],
                                 ReplicationId(c.sgd.group, i), ReplicationSeed(c.sgd.group, i));
    && ArmShows(input, c.sgd.group, c.sgd, i, seen.sgd, seen.sharedKey, seen.sgdNoise, p.arms[10 * k + 2 * i])
    && ArmShows(input, c.sgd.group, c.adam, i, seen.adam, seen.sharedKey, seen.adamNoise, p.arms[10 * k + 2 * i + 1])
    && p.replications[5 * k + i] == ReplicationId(c.sgd.group, i)
    && Observes(input, c.sgd, c.adam, i, p.effects[5 * k + i])
  }

  /** The five replications of every comparison, comparison after comparison. */
  ghost predicate Records(input: Input, cs: seq<Comparison>, p: Prefix) {
    && |p.groups| == |cs| && |p.replications| == |p.effects| == 5 * |cs| && |p.arms| == 10 * |cs|
    && (forall k: nat :: k < |cs| ==> p.groups[k] == CalibrationGroup(GroupId(cs[k].sgd.group), cs[k].sgd.group, cs[k].sgd.controls))
    && (forall k: nat, i: nat :: k < |cs| && i < 5 ==> ReplicationAt(input, cs[k], p, k, i))
  }

  lemma {:induction false} ArmsOfGroup(input: Input, c: Comparison, n: nat, i: nat)
    requires AllObserved(input, c, n) && i < n
    ensures c.sgd.candidateId in input.candidates && c.adam.candidateId in input.candidates
    ensures var seen := input.observe(input.candidates[c.sgd.candidateId], input.candidates[c.adam.candidateId],
                                      ReplicationId(c.sgd.group, i), ReplicationSeed(c.sgd.group, i));
      && ArmShows(input, c.sgd.group, c.sgd, i, seen.sgd, seen.sharedKey, seen.sgdNoise, Calibration.GroupArms(input, c, n)[2 * i])
      && ArmShows(input, c.sgd.group, c.adam, i, seen.adam, seen.sharedKey, seen.adamNoise, Calibration.GroupArms(input, c, n)[2 * i + 1])
  {
    var arms := ReplicationArms(input, c, n - 1).value;
    if i == n - 1 {
      assert Calibration.GroupArms(input, c, n)[2 * i] == arms.0 && Calibration.GroupArms(input, c, n)[2 * i + 1] == arms.1;
    } else {
      ArmsOfGroup(input, c, n - 1, i);
    }
  }

  lemma {:induction false} AssembledRecords(input: Input, cs: seq<Comparison>)
    requires AllGroupsObserved(input, cs) && forall k :: 0 <= k < |cs| ==> ProperComparison(cs[k])
    ensures Records(input, cs, Assembled(input, cs))
  {
    hide AllObserved, Calibration.GroupArms, GroupEffects, ReplicationArms, ProperComparison, ReplicationAt;
    if |cs| > 0 {
      var n := |cs| - 1;
      var c, before, p := cs[n], Assembled(input, cs[..n]), Assembled(input, cs);
      AssembledRecords(input, cs[..n]);
      AfterLists(input, c, before);
      forall k: nat, i: nat | k < |cs| && i < 5 ensures ReplicationAt(input, cs[k], p, k, i) {
        if k < n {
          assert cs[..n][k] == cs[k];
          assert ReplicationAt(input, cs[k], before, k, i);
          KeptReplication(input, cs[k], before, p, k, i);
        } else {
          NewReplication(input, c, before, i);
        }
      }
    }
  }

  lemma KeptReplication(input: Input, c: Comparison, before: Prefix, p: Prefix, k: nat, i: nat)
    requires 5 * k + i < |before.effects| && 5 * k + i < |before.replications| && 10 * k + 2 * i + 1 < |before.arms|
    requires before.effects <= p.effects && before.replications <= p.replications && before.arms <= p.arms
    requires ReplicationAt(input, c, before, k, i)
    ensures ReplicationAt(input, c, p, k, i)
  {
    hide ArmShows, Observes;
  }

  lemma NewReplication(input: Input, c: Comparison, before: Prefix, i: nat)
    requires AllObserved(input, c, 5) && ProperComparison(c) && i < 5
    requires |before.replications| == |before.effects| == 5 * |before.groups| && |before.arms| == 10 * |before.groups|
    ensures ReplicationAt(input, c, AfterReplications(input, c, before, 5), |before.groups|, i)
  {
    ArmsOfGroup(input, c, 5, i);
    GroupEffectsObserve(input, c, 5);
    hide AllObserved, Calibration.GroupArms, GroupEffects, ReplicationArms, ProperComparison, ArmShows, Observes;
    var k, p := |before.groups|, AfterReplications(input, c, before, 5);
    assert p.arms[10 * k + 2 * i] == Calibration.GroupArms(input, c, 5)[2 * i];
    assert p.arms[10 * k + 2 * i + 1] == Calibration.GroupArms(input, c, 5)[2 * i + 1];
    assert p.effects[5 * k + i] == GroupEffects(input, c, 5)[i];
  }

  /** The comparisons are those of the designs, each once, in the order their keys sort. */
  ghost predicate InKeyOrder(input: Input, cs: seq<Comparison>) {
    && (forall sgd, adam :: Comparison(sgd, adam) in cs <==> Opposed(input.designs, sgd, adam))
    && (forall i, j :: 0 <= i < j < |cs| ==>
          && cs[i].sgd.Key() != cs[j].sgd.Key()
          && !StringLess(input.repr(cs[j].sgd.Key()), input.repr(cs[i].sgd.Key())))
  }

  /** A built prefix records, comparison after comparison in key order, five replications of its two candidates,
      and its cost is the sum of the costs of the arms. */
  lemma BuiltRecords(input: Input) returns (cs: seq<Comparison>)
    requires BuildPrefix(input).Ok?
    ensures InKeyOrder(input, cs) && Records(input, cs, BuildPrefix(input).value.parts)
    ensures BuildPrefix(input).value.cost == Sum(Costs(BuildPrefix(input).value.parts.arms))
  {
    var keys := SortedKeys(input);
    GroupedExact(input, keys);
    hide SortedKeys, ComparisonOf, AllObserved, Assembled, CompleteGroups, Grouped, Records, ProperComparison, Opposed, Sum, GroupsDistinct;
    cs := Comparisons(input, keys);
    forall k | 0 <= k < |cs|
      ensures ProperComparison(cs[k]) && Opposed(input.designs, cs[k].sgd, cs[k].adam) && cs[k].sgd.Key() == keys[k]
    {
      OpposedDesigns(input, keys[k]);
      ComparisonMembers(input.designs, keys[k]);
    }
    AssembledRecords(input, cs);
    SortedKeysExact(input);
    forall sgd, adam ensures Comparison(sgd, adam) in cs <==> Opposed(input.designs, sgd, adam) {
      if Opposed(input.designs, sgd, adam) {
        var k := ComparisonFound(input, keys, sgd, adam);
      }
    }
  }
}
