/** What a sigma is estimated from: exactly the available effects of its group, in the order they became
    available, at least five of them, and never below the floor. */
module SigmaMeaning {
  import opened Wrappers
  import opened Ordering
  import opened BeliefModels
  import opened PredictionAdapter

  /** An earlier effect of the group, other than the evidence left out if there is any. */
  predicate Counts(e: MatchedEffect, group: string, cutoff: nat, without: Option<string>) {
    e.group == group && e.availableSequence < cutoff && (without.Some? ==> e.id != without.value)
  }

  predicate InSequence(a: MatchedEffect, b: MatchedEffect) {
    a.availableSequence < b.availableSequence || (a.availableSequence == b.availableSequence && StringLess(a.id, b.id))
  }

  ghost predicate InOrder(s: seq<MatchedEffect>) {
    forall i, j :: 0 <= i < j < |s| ==> InSequence(s[i], s[j])
  }

  /** The effects that count, each as often as in the history, by sequence and then by identifier. */
  ghost predicate Listed(history: seq<MatchedEffect>, group: string, cutoff: nat, without: Option<string>, effects: seq<MatchedEffect>) {
    && (forall e :: multiset(effects)[e] == if Counts(e, group, cutoff, without) then multiset(history)[e] else 0)
    && InOrder(effects)
  }

  ghost predicate ValuesOf(effects: seq<MatchedEffect>, values: seq<real>) {
    |values| == |effects| && forall i :: 0 <= i < |effects| ==> values[i] == effects[i].observed
  }

  ghost predicate IdsOf(effects: seq<MatchedEffect>, ids: seq<string>) {
    |ids| == |effects| && forall i :: 0 <= i < |effects| ==> ids[i] == effects[i].id
  }

  /** The fixed 0.05, also for want of five effects; else the deviation of the values, and at least 0.05. */
  ghost predicate EstimatedFrom(deviation: Deviation, model: Model, effects: seq<MatchedEffect>, choice: SigmaChoice) {
    if model.FixedSigma? then choice == SigmaChoice(0.05, Fixed, [])
    else if |effects| < 5 then choice.sigma == 0.05 && choice.status == BaselineFallback && IdsOf(effects, choice.sources)
    else
      && choice.status == Calibrated && IdsOf(effects, choice.sources)
      && choice.sigma >= 0.05
      && (forall values :: ValuesOf(effects, values) ==>
            choice.sigma >= deviation(values) && (choice.sigma == 0.05 || choice.sigma == deviation(values)))
  }

  // ----- what sorting and filtering give -----

  lemma {:induction false} FilteredCounts(s: seq<MatchedEffect>, keep: MatchedEffect -> bool, e: MatchedEffect)
    ensures multiset(Filtered(s, keep))[e] == if keep(e) then multiset(s)[e] else 0
  {
    if |s| > 0 {
      var n := |s| - 1;
      FilteredCounts(s[..n], keep, e);
      assert s == s[..n] + [s[n]];
    }
  }

  lemma EffectOrder()
    ensures StrictWeakOrder(EffectBefore)
    ensures forall a: MatchedEffect, b: MatchedEffect :: a.id == b.id || EffectBefore(a, b) || EffectBefore(b, a)
  {
    StringOrder();
  }

  lemma AscendingDistinct(s: seq<MatchedEffect>)
    requires Ascending(s, EffectBefore) && Distinct(EffectIds(s))
    ensures InOrder(s)
  {
    hide StringLess;
    EffectOrder();
    forall i, j | 0 <= i < j < |s| ensures InSequence(s[i], s[j]) {
      assert !EffectBefore(s[j], s[i]);
      assert EffectIds(s)[i] != EffectIds(s)[j];
    }
  }

  /** A list in strict order is determined by what it holds. */
  lemma {:induction false} OneOrder(a: seq<MatchedEffect>, b: seq<MatchedEffect>)
    requires multiset(a) == multiset(b) && InOrder(a) && InOrder(b)
    ensures a == b
    decreases |a|
  {
    hide InSequence;
    assert |a| == |multiset(a)| == |multiset(b)| == |b|;
    if |a| > 0 {
      SameFirst(a, b);
      assert a == [a[0]] + a[1..] && b == [b[0]] + b[1..];
      hide InOrder;
      TailInOrder(a);
      TailInOrder(b);
      assert multiset(a[1..]) == multiset(a) - multiset{a[0]};
      assert multiset(b[1..]) == multiset(b) - multiset{b[0]};
      OneOrder(a[1..], b[1..]);
    }
  }

  lemma TailInOrder(s: seq<MatchedEffect>)
    requires InOrder(s) && |s| > 0
    ensures InOrder(s[1..])
  {
    hide InSequence;
  }

  lemma SameFirst(a: seq<MatchedEffect>, b: seq<MatchedEffect>)
    requires multiset(a) == multiset(b) && |a| == |b| > 0 && InOrder(a) && InOrder(b)
    ensures a[0] == b[0]
  {
    hide InSequence;
    assert a[0] in multiset(b) && b[0] in multiset(a);
    var k :| 0 <= k < |b| && b[k] == a[0];
    var l :| 0 <= l < |a| && a[l] == b[0];
    if k > 0 && l > 0 {
      assert InSequence(b[0], b[k]) && InSequence(a[0], a[l]);
      BothBefore(a[0], b[0]);
    }
  }

  lemma BothBefore(a: MatchedEffect, b: MatchedEffect)
    requires InSequence(a, b)
    ensures !InSequence(b, a)
  {
    if StringLess(a.id, b.id) {
      StringAsymmetric(a.id, b.id);
    }
  }

  lemma SourcesAreListed(history: seq<MatchedEffect>, keep: MatchedEffect -> bool, group: string, cutoff: nat, without: Option<string>)
    requires forall e :: keep(e) <==> Counts(e, group, cutoff, without)
    requires Distinct(EffectIds(SourcesOf(history, keep)))
    ensures Listed(history, group, cutoff, without, SourcesOf(history, keep))
  {
    hide EffectBefore, Counts, InSequence;
    var sources := SourcesOf(history, keep);
    SortMultiset(Filtered(history, keep), EffectBefore);
    forall e ensures multiset(sources)[e] == if Counts(e, group, cutoff, without) then multiset(history)[e] else 0 {
      FilteredCounts(history, keep, e);
    }
    EffectOrder();
    SortAscending(Filtered(history, keep), EffectBefore);
    AscendingDistinct(sources);
  }

  lemma ListedOnce(history: seq<MatchedEffect>, group: string, cutoff: nat, without: Option<string>,
                   a: seq<MatchedEffect>, b: seq<MatchedEffect>)
    requires Listed(history, group, cutoff, without, a) && Listed(history, group, cutoff, without, b)
    ensures a == b
  {
    hide InSequence, Counts;
    forall e ensures multiset(a)[e] == multiset(b)[e] {
    }
    assert multiset(a) == multiset(b);
    OneOrder(a, b);
  }

  lemma EstimateOf(deviation: Deviation, effects: seq<MatchedEffect>)
    requires |effects| >= 5
    ensures EstimatedFrom(deviation, CalibratedSigma, effects,
              SigmaChoice(Max(deviation(EffectValues(effects)), SIGMA_FLOOR), Calibrated, EffectIds(effects)))
  {
    forall values | ValuesOf(effects, values) ensures values == EffectValues(effects) {
    }
  }

  // ----- the two choices of sigma -----

  /** The sigma an update uses, when its sources repeat no identifier: estimated from exactly the available
      effects of the group other than the evidence itself. */
  lemma SelectSigmaMeaning(deviation: Deviation, model: Model, history: seq<MatchedEffect>, group: string, cutoff: nat, id: string,
                           effects: seq<MatchedEffect>)
    requires Distinct(SelectSigma(deviation, model, history, group, cutoff, id).sources)
    requires Listed(history, group, cutoff, Some(id), effects)
    ensures EstimatedFrom(deviation, model, effects, SelectSigma(deviation, model, history, group, cutoff, id))
  {
    hide SourcesOf, Listed, Counts;
    if model.CalibratedSigma? {
      var keep := AvailableExcept(group, cutoff, id);
      forall e ensures keep(e) <==> Counts(e, group, cutoff, Some(id)) {
        CountsExcept(e, group, cutoff, id);
      }
      SourcesAreListed(history, keep, group, cutoff, Some(id));
      ListedOnce(history, group, cutoff, Some(id), effects, SourcesOf(history, keep));
      if |effects| >= 5 {
        EstimateOf(deviation, effects);
      }
    }
  }

  lemma CountsExcept(e: MatchedEffect, group: string, cutoff: nat, id: string)
    ensures AvailableExcept(group, cutoff, id)(e) <==> Counts(e, group, cutoff, Some(id))
    ensures Available(group, cutoff)(e) <==> Counts(e, group, cutoff, None)
  {
  }

  /** The sigma a planner freezes: the same, with nothing left out. */
  lemma PlanSigmaMeaning(deviation: Deviation, model: Model, history: seq<MatchedEffect>, group: string, cutoff: nat,
                         effects: seq<MatchedEffect>)
    requires Distinct(PlanSigma(deviation, model, history, group, cutoff).sources)
    requires Listed(history, group, cutoff, None, effects)
    ensures EstimatedFrom(deviation, model, effects, PlanSigma(deviation, model, history, group, cutoff))
  {
    hide SourcesOf, Listed, Counts;
    if model.CalibratedSigma? {
      var keep := Available(group, cutoff);
      forall e ensures keep(e) <==> Counts(e, group, cutoff, None) {
        CountsExcept(e, group, cutoff, "");
      }
      SourcesAreListed(history, keep, group, cutoff, None);
      ListedOnce(history, group, cutoff, None, effects, SourcesOf(history, keep));
      if |effects| >= 5 {
        EstimateOf(deviation, effects);
      }
    }
  }

  /** Such a list exists whenever no identifier repeats. */
  lemma ListExists(history: seq<MatchedEffect>, group: string, cutoff: nat, without: Option<string>) returns (effects: seq<MatchedEffect>)
    requires !RepeatedIds(history, (e: MatchedEffect) => Counts(e, group, cutoff, without))
    ensures Listed(history, group, cutoff, without, effects)
  {
    var keep := (e: MatchedEffect) => Counts(e, group, cutoff, without);
    SourcesDistinctIff(history, keep);
    SourcesAreListed(history, keep, group, cutoff, without);
    effects := SourcesOf(history, keep);
  }
}
