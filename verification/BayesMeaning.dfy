/** Bayes' rule and mutual information as equations, for any table of outcome probabilities. */
module BayesMeaning {
  import opened RealSums
  import opened Information

  /** How probable outcome `o` is together with each hypothesis. */
  function Shares(p: seq<real>, m: seq<seq<real>>, width: nat, o: nat): (r: seq<real>)
    requires Fits(p, m, width) && o < width
    ensures |r| == |p|
  {
    seq(|p|, h requires 0 <= h < |p| => p[h] * m[h][o])
  }

  /** `chance` is the probability of outcome `o`, and `after` the belief it leads to. */
  predicate BayesAt(p: seq<real>, m: seq<seq<real>>, width: nat, o: nat, chance: real, after: seq<real>)
    requires Fits(p, m, width) && o < width
  {
    && |after| == |p|
    && chance == Sum(Shares(p, m, width, o))
    && (forall h :: 0 <= h < |p| ==> after[h] * chance == p[h] * m[h][o])
  }

  predicate BayesTable(p: seq<real>, m: seq<seq<real>>, width: nat, chance: seq<real>, after: seq<seq<real>>)
    requires Fits(p, m, width)
  {
    |chance| == |after| == width && forall o :: 0 <= o < width ==> BayesAt(p, m, width, o, chance[o], after[o])
  }

  lemma TimesInverse(x: real, k: real)
    requires k > 0.0
    ensures x / k * k == x && x * k / k == x
  {
  }

  lemma CancelPositive(k: real, x: real, y: real)
    requires k > 0.0 && x * k == y * k
    ensures x == y
  {
    TimesInverse(x, k);
    TimesInverse(y, k);
  }

  lemma SharesWeighted(p: seq<real>, m: seq<seq<real>>, width: nat, o: nat)
    requires Fits(p, m, width) && o < width
    ensures Shares(p, m, width, o) == Weighted(p, m, width, o)
    ensures Sum(Shares(p, m, width, o)) == Predictive(p, m, width, o)
  {
  }

  lemma PosteriorTimes(p: seq<real>, m: seq<seq<real>>, width: nat, o: nat, h: nat)
    requires Fits(p, m, width) && o < width && h < |p| && Predictive(p, m, width, o) > 0.0
    ensures Posterior(p, m, width, o)[h] * Predictive(p, m, width, o) == p[h] * m[h][o]
  {
    hide Predictive;
    TimesInverse(p[h] * m[h][o], Predictive(p, m, width, o));
  }

  /** Of a possible outcome the table holds the predictive probability and posterior that are computed. */
  lemma BayesAtIsPosterior(p: seq<real>, m: seq<seq<real>>, width: nat, o: nat, chance: real, after: seq<real>)
    requires Fits(p, m, width) && o < width && BayesAt(p, m, width, o, chance, after)
    ensures chance == Predictive(p, m, width, o)
    ensures chance > 0.0 ==> after == Posterior(p, m, width, o)
  {
    hide Predictive, Posterior, Shares;
    SharesWeighted(p, m, width, o);
    if chance > 0.0 {
      forall h | 0 <= h < |p| ensures after[h] == Posterior(p, m, width, o)[h] {
        PosteriorTimes(p, m, width, o, h);
        CancelPositive(chance, after[h], Posterior(p, m, width, o)[h]);
      }
    }
  }

  /** The kernel of every probability. */
  function Applied(phi: Kernel, p: seq<real>): (r: seq<real>)
    ensures |r| == |p|
  {
    seq(|p|, i requires 0 <= i < |p| => phi(p[i]))
  }

  function MeanTerms(phi: Kernel, chance: seq<real>, after: seq<seq<real>>): (r: seq<real>)
    requires |chance| == |after|
    ensures |r| == |chance|
  {
    seq(|chance|, o requires 0 <= o < |chance| => chance[o] * Sum(Applied(phi, after[o])))
  }

  /** The entropy of a belief less its mean entropy after the observation. */
  function MutualInformation(phi: Kernel, p: seq<real>, chance: seq<real>, after: seq<seq<real>>): real
    requires |chance| == |after|
  {
    Sum(Applied(phi, p)) - Sum(MeanTerms(phi, chance, after))
  }

  lemma EntropyIsApplied(phi: Kernel, p: seq<real>)
    requires EntropyKernel(phi) && AllNonNegative(p)
    ensures Entropy(phi, p) == Sum(Applied(phi, p))
  {
    assert EntropyTerms(phi, p) == Applied(phi, p);
  }

  /** What both gain calculations compute is the mutual information of belief and outcome. */
  lemma GainIsMutualInformation(phi: Kernel, p: seq<real>, m: seq<seq<real>>, width: nat, chance: seq<real>, after: seq<seq<real>>)
    requires EntropyKernel(phi) && Fits(p, m, width) && RowStochastic(m, width) && IsDistribution(p)
    requires BayesTable(p, m, width, chance, after)
    ensures Entropy(phi, p) - ExpectedEntropy(phi, p, m, width) == MutualInformation(phi, p, chance, after)
  {
    hide EntropyKernel, RowStochastic, BayesAt, Applied, Entropy, OutcomeTerm;
    EntropyIsApplied(phi, p);
    forall o | 0 <= o < width ensures OutcomeTerms(phi, p, m, width)[o] == MeanTerms(phi, chance, after)[o] {
      MeanTerm(phi, p, m, width, o, chance[o], after[o]);
    }
    assert OutcomeTerms(phi, p, m, width) == MeanTerms(phi, chance, after);
  }

  lemma MeanTerm(phi: Kernel, p: seq<real>, m: seq<seq<real>>, width: nat, o: nat, chance: real, after: seq<real>)
    requires EntropyKernel(phi) && Fits(p, m, width) && RowStochastic(m, width) && IsDistribution(p) && o < width
    requires BayesAt(p, m, width, o, chance, after)
    ensures OutcomeTerm(phi, p, m, width, o) == chance * Sum(Applied(phi, after))
  {
    hide EntropyKernel, RowStochastic, Applied, Entropy, BayesAt, Predictive, Posterior;
    BayesAtIsPosterior(p, m, width, o, chance, after);
    JointNonNegative(p, m, width, o);
    if chance > 0.0 {
      PosteriorDistribution(p, m, width, o);
      EntropyIsApplied(phi, after);
    }
  }

  /** Such a table always exists. */
  lemma BayesTableExists(p: seq<real>, m: seq<seq<real>>, width: nat) returns (chance: seq<real>, after: seq<seq<real>>)
    requires Fits(p, m, width) && RowStochastic(m, width) && AllNonNegative(p)
    ensures BayesTable(p, m, width, chance, after)
  {
    hide Predictive, Posterior, BayesAt, RowStochastic;
    chance := Predictives(p, m, width);
    after := seq(width, o requires 0 <= o < width => if chance[o] > 0.0 then Posterior(p, m, width, o) else p);
    forall o | 0 <= o < width ensures BayesAt(p, m, width, o, chance[o], after[o]) {
      PosteriorIsBayesAt(p, m, width, o, after[o]);
    }
  }

  lemma PosteriorIsBayesAt(p: seq<real>, m: seq<seq<real>>, width: nat, o: nat, after: seq<real>)
    requires Fits(p, m, width) && RowStochastic(m, width) && AllNonNegative(p) && o < width && |after| == |p|
    requires Predictive(p, m, width, o) > 0.0 ==> after == Posterior(p, m, width, o)
    ensures BayesAt(p, m, width, o, Predictive(p, m, width, o), after)
  {
    hide Predictive, Posterior, Shares, RowStochastic;
    SharesWeighted(p, m, width, o);
    JointNonNegative(p, m, width, o);
    var q := Predictive(p, m, width, o);
    forall h | 0 <= h < |p| ensures after[h] * q == p[h] * m[h][o] {
      if q > 0.0 {
        PosteriorTimes(p, m, width, o, h);
      } else {
        assert Weighted(p, m, width, o)[h] == 0.0;
      }
    }
  }
}
