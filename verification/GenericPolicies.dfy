/** The prior-utility greedy policy, as the version 2 policy object and as the version 3
    factory write it, and the order in which it visits the candidates. */
module GenericPolicies {
  import opened Wrappers
  import opened Ordering
  import opened RunSpecs

  datatype PolicyError = ForeignCompletion | NoCandidatesRemain

  datatype GreedyChoice = GreedyChoice(candidate: CandidateSpec, eligibleCount: nat)

  ghost predicate Rated(candidates: seq<CandidateSpec>, utilities: map<string, real>) {
    forall c :: c in candidates ==> c.id in utilities
  }

  /** The version 2 loop after the first `k` candidates: it skips completed ones as it goes. */
  function ScanAll(candidates: seq<CandidateSpec>, utilities: map<string, real>, completed: set<string>, k: nat)
    : (r: (Option<CandidateSpec>, nat))
    requires k <= |candidates| && Rated(candidates, utilities)
    ensures r.0.Some? ==> r.0.value in candidates
  {
    if k == 0 then (None, 0)
    else
      var (selected, count) := ScanAll(candidates, utilities, completed, k - 1);
      var c := candidates[k - 1];
      if c.id in completed then (selected, count)
      else if selected.None? || utilities[c.id] > utilities[selected.value.id] then (Some(c), count + 1)
      else (selected, count + 1)
  }

  /** The version 3 loop over an eligible list built beforehand. */
  function ScanEligible(eligible: seq<CandidateSpec>, utilities: map<string, real>, k: nat)
    : (r: Option<CandidateSpec>)
    requires k <= |eligible| && Rated(eligible, utilities)
    ensures r.Some? ==> r.value in eligible
  {
    if k == 0 then None
    else
      var selected := ScanEligible(eligible, utilities, k - 1);
      var c := eligible[k - 1];
      if selected.None? || utilities[c.id] > utilities[selected.value.id] then Some(c) else selected
  }

  /** `PriorGreedyPolicy._select_with_eligible_count`. */
  method SelectWithEligibleCount(spec: RunSpec, completedItems: seq<string>)
    returns (r: Result<GreedyChoice, PolicyError>)
    requires ValidSpec(spec) && spec.policy.GreedyPrior?
    ensures if forall id :: id in completedItems ==> Known(spec.candidates, id)
            then r == GreedySelection(spec, set id | id in completedItems)
            else r == Err(ForeignCompletion)
  {
    var completed := set id | id in completedItems;
    var ids := set c | c in spec.candidates :: c.id;
    KnownIds(spec.candidates);
    if !(completed <= ids) {
      return Err(ForeignCompletion);
    }
    forall id | id in completedItems ensures Known(spec.candidates, id) {
      assert id in completed;
      assert id in ids;
    }
    var utilities := spec.policy.utilities;
    AllRated(spec);
    var selected, eligibleCount := ScanCandidates(spec.candidates, utilities, completed);
    if selected.None? {
      return Err(NoCandidatesRemain);
    }
    return Ok(GreedyChoice(selected.value, eligibleCount));
  }

  /** Its loop: completed candidates are skipped, the others counted and compared. */
  method ScanCandidates(candidates: seq<CandidateSpec>, utilities: map<string, real>, completed: set<string>)
    returns (selected: Option<CandidateSpec>, eligibleCount: nat)
    requires Rated(candidates, utilities)
    ensures (selected, eligibleCount) == ScanAll(candidates, utilities, completed, |candidates|)
  {
    selected, eligibleCount := None, 0;
    for i := 0 to |candidates|
      invariant (selected, eligibleCount) == ScanAll(candidates, utilities, completed, i)
    {
      var c := candidates[i];
      if c.id in completed {
        continue;
      }
      eligibleCount := eligibleCount + 1;
      if selected.None? || utilities[c.id] > utilities[selected.value.id] {
        selected := Some(c);
      }
    }
  }

  lemma KnownIds(candidates: seq<CandidateSpec>)
    ensures forall id :: id in (set c | c in candidates :: c.id) <==> Known(candidates, id)
  {
  }

  lemma AllRated(spec: RunSpec)
    requires ValidSpec(spec) && spec.policy.GreedyPrior?
    ensures Rated(spec.candidates, spec.policy.utilities)
  {
    forall c | c in spec.candidates ensures c.id in spec.policy.utilities {
      assert Known(spec.candidates, c.id);
    }
  }

  function GreedySelection(spec: RunSpec, completed: set<string>): (r: Result<GreedyChoice, PolicyError>)
    requires ValidSpec(spec) && spec.policy.GreedyPrior?
    ensures r.Ok? ==> r.value.candidate in spec.candidates
  {
    AllRated(spec);
    var (selected, count) := ScanAll(spec.candidates, spec.policy.utilities, completed, |spec.candidates|);
    if selected.None? then Err(NoCandidatesRemain) else Ok(GreedyChoice(selected.value, count))
  }

  /** The loop of `_greedy_policy_factory_v3`. */
  method SelectFromEligible(eligible: seq<CandidateSpec>, utilities: map<string, real>)
    returns (selected: Option<CandidateSpec>)
    requires Rated(eligible, utilities)
    ensures selected == ScanEligible(eligible, utilities, |eligible|)
  {
    selected := None;
    for i := 0 to |eligible|
      invariant selected == ScanEligible(eligible, utilities, i)
    {
      var c := eligible[i];
      if selected.None? || utilities[c.id] > utilities[selected.value.id] {
        selected := Some(c);
      }
    }
  }

  lemma EligiblePrefix(candidates: seq<CandidateSpec>, completed: set<string>, k: nat)
    requires k < |candidates|
    ensures Eligible(candidates[..k + 1], completed)
         == if candidates[k].id in completed then Eligible(candidates[..k], completed)
            else Eligible(candidates[..k], completed) + [candidates[k]]
  {
    assert candidates[..k + 1][..k] == candidates[..k];
  }

  lemma {:induction false} ScanEligiblePrefix(a: seq<CandidateSpec>, b: seq<CandidateSpec>, utilities: map<string, real>, k: nat)
    requires k <= |a| && a <= b && Rated(b, utilities) && Rated(a, utilities)
    ensures ScanEligible(a, utilities, k) == ScanEligible(b, utilities, k)
  {
    if k > 0 {
      ScanEligiblePrefix(a, b, utilities, k - 1);
    }
  }

  lemma EligibleRated(candidates: seq<CandidateSpec>, utilities: map<string, real>, completed: set<string>)
    requires Rated(candidates, utilities)
    ensures Rated(Eligible(candidates, completed), utilities)
  {
  }

  /** The two loops agree for every completed set, and the running count is the number of
      eligible candidates. */
  lemma {:induction false} GreedyLoopsAgree(candidates: seq<CandidateSpec>, utilities: map<string, real>,
                                            completed: set<string>, k: nat, open: seq<CandidateSpec>)
    requires k <= |candidates| && Rated(candidates, utilities) && Rated(open, utilities)
    requires open == Eligible(candidates[..k], completed)
    ensures ScanAll(candidates, utilities, completed, k) == (ScanEligible(open, utilities, |open|), |open|)
  {
    if k > 0 {
      var before := Eligible(candidates[..k - 1], completed);
      EligibleRated(candidates[..k - 1], utilities, completed);
      GreedyLoopsAgree(candidates, utilities, completed, k - 1, before);
      EligiblePrefix(candidates, completed, k - 1);
      var c := candidates[k - 1];
      var earlier := ScanAll(candidates, utilities, completed, k - 1);
      if c.id in completed {
        assert open == before && ScanAll(candidates, utilities, completed, k) == earlier;
      } else {
        assert open == before + [c];
        ScanEligibleAppend(before, c, utilities);
        assert ScanAll(candidates, utilities, completed, k).1 == |open|;
        assert ScanAll(candidates, utilities, completed, k).0 == ScanEligible(open, utilities, |open|);
      }
    }
  }

  lemma ScanEligibleAppend(before: seq<CandidateSpec>, c: CandidateSpec, utilities: map<string, real>)
    requires Rated(before, utilities) && c.id in utilities
    ensures Rated(before + [c], utilities)
    ensures ScanEligible(before + [c], utilities, |before| + 1)
         == var selected := ScanEligible(before, utilities, |before|);
            if selected.None? || utilities[c.id] > utilities[selected.value.id] then Some(c) else selected
  {
    var now := before + [c];
    assert forall x :: x in now ==> x in before || x == c;
    ScanEligiblePrefix(before, now, utilities, |before|);
    assert now[|before|] == c;
  }

  // ----- the order of a whole greedy run -----

  /** Sort key of a stable descending order by declared utility. */
  ghost function HigherUtility(utilities: map<string, real>): (CandidateSpec, CandidateSpec) -> bool {
    (a: CandidateSpec, b: CandidateSpec) =>
      (if a.id in utilities then utilities[a.id] else 0.0) > (if b.id in utilities then utilities[b.id] else 0.0)
  }

  lemma UtilityOrder(utilities: map<string, real>)
    ensures StrictWeakOrder(HigherUtility(utilities))
  {
  }

  /** The loop keeps the first candidate of greatest utility. */
  lemma {:induction false} ScanIsFirstBest(eligible: seq<CandidateSpec>, utilities: map<string, real>, k: nat)
    requires 0 < k <= |eligible| && Rated(eligible, utilities)
    ensures exists i: nat :: FirstBest(eligible, utilities, k, i) && ScanEligible(eligible, utilities, k) == Some(eligible[i])
  {
    if k == 1 {
      assert ScanEligible(eligible, utilities, 0) == None;
      assert FirstBest(eligible, utilities, 1, 0);
    } else {
      ScanIsFirstBest(eligible, utilities, k - 1);
      var i: nat :| FirstBest(eligible, utilities, k - 1, i) && ScanEligible(eligible, utilities, k - 1) == Some(eligible[i]);
      if utilities[eligible[k - 1].id] > utilities[eligible[i].id] {
        assert FirstBest(eligible, utilities, k, k - 1);
      } else {
        assert FirstBest(eligible, utilities, k, i);
      }
    }
  }

  /** Among the first `k`, element `i` has the greatest utility and no earlier one ties with it. */
  ghost predicate FirstBest(eligible: seq<CandidateSpec>, utilities: map<string, real>, k: nat, i: nat)
    requires k <= |eligible| && Rated(eligible, utilities)
  {
    && i < k
    && (forall j :: 0 <= j < k ==> utilities[eligible[j].id] <= utilities[eligible[i].id])
    && (forall j :: 0 <= j < i ==> utilities[eligible[j].id] < utilities[eligible[i].id])
  }

  ghost function StableOrder(spec: RunSpec): (r: seq<CandidateSpec>)
    requires spec.policy.GreedyPrior?
    ensures |r| == |spec.candidates|
  {
    SortBy(spec.candidates, HigherUtility(spec.policy.utilities))
  }

  ghost function IdSet(candidates: seq<CandidateSpec>): set<string> {
    set c | c in candidates :: c.id
  }

  /** One greedy choice out of an eligible list is the head of its stable sort. */
  lemma ChoiceIsSortHead(eligible: seq<CandidateSpec>, utilities: map<string, real>)
    requires |eligible| > 0 && Rated(eligible, utilities)
    ensures ScanEligible(eligible, utilities, |eligible|) == Some(SortBy(eligible, HigherUtility(utilities))[0])
  {
    var i := BestIsFirstLeast(eligible, utilities);
    UtilityOrder(utilities);
    StableSortHead(eligible, HigherUtility(utilities), i);
  }

  lemma BestIsFirstLeast(eligible: seq<CandidateSpec>, utilities: map<string, real>) returns (i: nat)
    requires |eligible| > 0 && Rated(eligible, utilities)
    ensures FirstLeast(eligible, HigherUtility(utilities), i)
    ensures ScanEligible(eligible, utilities, |eligible|) == Some(eligible[i])
  {
    ScanIsFirstBest(eligible, utilities, |eligible|);
    i :| FirstBest(eligible, utilities, |eligible|, i) && ScanEligible(eligible, utilities, |eligible|) == Some(eligible[i]);
  }

  /** Completing the chosen candidate leaves the eligible list without it. */
  lemma {:induction false} EligibleWithout(candidates: seq<CandidateSpec>, completed: set<string>, i: nat)
    requires UniqueIds(candidates) && i < |Eligible(candidates, completed)|
    ensures Eligible(candidates, completed + {Eligible(candidates, completed)[i].id})
         == Without(Eligible(candidates, completed), i)
  {
    hide Known;
    var n := |candidates| - 1;
    var open, rest, last := Eligible(candidates, completed), Eligible(candidates[..n], completed), candidates[n];
    if last.id in completed {
      EligibleWithout(candidates[..n], completed, i);
    } else if i < |rest| {
      EligibleWithout(candidates[..n], completed, i);
      DistinctFromLast(candidates, completed, i);
      assert Without(open, i) == Without(rest, i) + [last];
    } else {
      assert Without(open, i) == rest;
      EligibleIgnores(candidates[..n], completed, last.id);
    }
  }

  lemma DistinctFromLast(candidates: seq<CandidateSpec>, completed: set<string>, i: nat)
    requires UniqueIds(candidates) && |candidates| > 0
    requires i < |Eligible(candidates[..|candidates| - 1], completed)|
    ensures Eligible(candidates[..|candidates| - 1], completed)[i].id != candidates[|candidates| - 1].id
  {
    var rest := Eligible(candidates[..|candidates| - 1], completed);
    assert rest[i] in rest;
  }

  lemma {:induction false} EligibleIgnores(candidates: seq<CandidateSpec>, completed: set<string>, id: string)
    requires forall c :: c in candidates ==> c.id != id
    ensures Eligible(candidates, completed + {id}) == Eligible(candidates, completed)
  {
    if |candidates| > 0 {
      EligibleIgnores(candidates[..|candidates| - 1], completed, id);
    }
  }

  /** After the first `k` candidates of the stable order, the eligible list sorts to the rest. */
  lemma {:induction false} RemainingOrder(spec: RunSpec, k: nat)
    requires ValidSpec(spec) && spec.policy.GreedyPrior? && k <= |spec.candidates|
    ensures SortBy(Eligible(spec.candidates, IdSet(StableOrder(spec)[..k])), HigherUtility(spec.policy.utilities))
         == StableOrder(spec)[k..]
  {
    var order, less := StableOrder(spec), HigherUtility(spec.policy.utilities);
    if k == 0 {
      EligibleAll(spec.candidates);
      assert IdSet(order[..0]) == {};
    } else {
      RemainingOrder(spec, k - 1);
      NextRemaining(spec, IdSet(order[..k - 1]), order[k - 1..]);
      IdSetPrefix(order, k - 1);
      assert order[k - 1..][1..] == order[k..];
    }
  }

  lemma NextRemaining(spec: RunSpec, done: set<string>, rest: seq<CandidateSpec>)
    requires ValidSpec(spec) && spec.policy.GreedyPrior? && |rest| > 0
    requires SortBy(Eligible(spec.candidates, done), HigherUtility(spec.policy.utilities)) == rest
    ensures SortBy(Eligible(spec.candidates, done + {rest[0].id}), HigherUtility(spec.policy.utilities)) == rest[1..]
  {
    var open := Eligible(spec.candidates, done);
    AllRated(spec);
    var i := BestIsFirstLeast(open, spec.policy.utilities);
    UtilityOrder(spec.policy.utilities);
    StableSortHead(open, HigherUtility(spec.policy.utilities), i);
    EligibleWithout(spec.candidates, done, i);
  }

  lemma IdSetPrefix(s: seq<CandidateSpec>, k: nat)
    requires k < |s|
    ensures IdSet(s[..k + 1]) == IdSet(s[..k]) + {s[k].id}
  {
    assert s[..k + 1] == s[..k] + [s[k]];
  }

  lemma {:induction false} EligibleAll(candidates: seq<CandidateSpec>)
    ensures Eligible(candidates, {}) == candidates
  {
    if |candidates| > 0 {
      EligibleAll(candidates[..|candidates| - 1]);
    }
  }

  /** Repeated greedy selection visits the candidates in stable descending utility order:
      with the first `k` of that order completed, the next choice is its `k`-th element. */
  lemma GreedyVisitsStableOrder(spec: RunSpec, k: nat)
    requires ValidSpec(spec) && spec.policy.GreedyPrior? && k < |spec.candidates|
    ensures GreedySelection(spec, IdSet(StableOrder(spec)[..k]))
         == Ok(GreedyChoice(StableOrder(spec)[k], |spec.candidates| - k))
  {
    hide SortBy, ScanEligible, ScanAll, Eligible, IdSet;
    var done := IdSet(StableOrder(spec)[..k]);
    var open := Eligible(spec.candidates, done);
    AllRated(spec);
    RemainingOrder(spec, k);
    ChoiceIsSortHead(open, spec.policy.utilities);
    assert spec.candidates[..|spec.candidates|] == spec.candidates;
    GreedyLoopsAgree(spec.candidates, spec.policy.utilities, done, |spec.candidates|, open);
  }
}
