/** The selection pipeline of fitting_algo: every candidate law is fitted and
    scored in order, the raw p-values are corrected jointly (Holm), and the
    eligible candidate with the smallest Kolmogorov-Smirnov distance is
    reshaped into a display record whose fields depend on the length of its
    parameter vector. The numerical routines (fit, cdf, the two-sample test,
    the multiple-testing correction) are given as function-valued inputs. */
module Fitting {
  import opened SupDistance

  datatype Option<T> = None | Some(value: T)
  datatype Result<T, E> = Success(value: T) | Failure(error: E)

  /** Family-wise significance level handed to the Holm correction. */
  const HolmAlpha: real := 0.05
  /** An adjusted p-value must exceed this for its candidate to be selected. */
  const PValueThreshold: real := 0.1

  /** A candidate law: its name, its parameter estimation (sample to
      parameter vector) and its CDF (points, shape arguments, location,
      scale to CDF values at those points). */
  datatype Distribution = Distribution(
    name: string,
    fit: seq<real> -> seq<real>,
    cdf: (seq<real>, seq<real>, real, real) -> seq<real>)

  /** A parameter vector cut into shape arguments, location and scale. */
  datatype ParamSplit = ParamSplit(arg: seq<real>, loc: real, scale: real)

  function JoinParams(p: ParamSplit): seq<real>
  {
    p.arg + [p.loc, p.scale]
  }

  /** arg = params[:-2], loc = params[-2], scale = params[-1]; a vector shorter
      than two has no location index. */
  function SplitParams(params: seq<real>): (r: Option<ParamSplit>)
    ensures r.Some? <==> |params| >= 2
    ensures r.Some? ==> JoinParams(r.value) == params && |r.value.arg| == |params| - 2
  {
    if |params| < 2 then None
    else Some(ParamSplit(params[..|params| - 2], params[|params| - 2], params[|params| - 1]))
  }

  /** Splitting a joined vector gives back its three parts. */
  lemma SplitJoin(p: ParamSplit)
    ensures SplitParams(JoinParams(p)) == Some(p)
  {
  }

  // ---------------------------------------------------------------------
  // Scoring every candidate (the loop filling the four lists)
  // ---------------------------------------------------------------------

  /** The errors a run can raise: indexing params[-2] of the candidate at
      this position failed, or the correction was handed no p-values at all
      (the Holm correction divides by the number of tests). */
  datatype FitError = ParamIndexError(candidate: nat) | EmptyCorrection

  /** The four lists filled in candidate order. */
  datatype Scores = Scores(
    laws: seq<string>,
    params: seq<seq<real>>,
    errors: seq<real>,
    pvalues: seq<real>)

  /** The fitted parameter vector of d has a location and a scale. */
  predicate ValidFit(d: Distribution, data: seq<real>)
  {
    |d.fit(data)| >= 2
  }

  /** The CDF of the fitted law of d at the support points. */
  function FittedCdf(d: Distribution, data: seq<real>, support: seq<real>): seq<real>
    requires ValidFit(d, data)
  {
    var sp := SplitParams(d.fit(data)).value;
    d.cdf(support, sp.arg, sp.loc, sp.scale)
  }

  /** The CDF of a candidate yields one value per support point. */
  predicate CdfAligned(d: Distribution, data: seq<real>, support: seq<real>)
  {
    ValidFit(d, data) ==> |FittedCdf(d, data, support)| == |support|
  }

  /** k is the first candidate whose fitted vector is shorter than two. */
  predicate IsFirstInvalid(cands: seq<Distribution>, data: seq<real>, k: nat)
  {
    && k < |cands|
    && !ValidFit(cands[k], data)
    && forall j :: 0 <= j < k ==> ValidFit(cands[j], data)
  }

  /** The lists as the scoring loop leaves them when every candidate fits:
      name, parameter vector, KS distance between the empirical and fitted
      CDFs, and the two-sample p-value, per candidate. */
  function ScoresOf(
    data: seq<real>, support: seq<real>, ecdf: seq<real>,
    cands: seq<Distribution>, ks2samp: (seq<real>, seq<real>) -> real): (s: Scores)
    requires |ecdf| == |support|
    requires forall i :: 0 <= i < |cands| ==> ValidFit(cands[i], data) && CdfAligned(cands[i], data, support)
    ensures |s.laws| == |s.params| == |s.errors| == |s.pvalues| == |cands|
    ensures forall i :: 0 <= i < |cands| ==> |s.params[i]| >= 2
  {
    forall i | 0 <= i < |cands| ensures |cands[i].fit(data)| >= 2 {
      assert ValidFit(cands[i], data);
    }
    Scores(
      seq(|cands|, i requires 0 <= i < |cands| => cands[i].name),
      seq(|cands|, i requires 0 <= i < |cands| => cands[i].fit(data)),
      seq(|cands|, i requires 0 <= i < |cands| =>
        assert CdfAligned(cands[i], data, support); Sup(ecdf, FittedCdf(cands[i], data, support))),
      seq(|cands|, i requires 0 <= i < |cands| => ks2samp(FittedCdf(cands[i], data, support), ecdf)))
  }

  /** Fits and scores the candidates in order. The sorted unique sample
      (support) and the empirical CDF at it (ecdf) are given; a candidate
      whose parameter vector has no location aborts the whole run. */
  method ScoreCandidates(
    data: seq<real>, support: seq<real>, ecdf: seq<real>,
    cands: seq<Distribution>, ks2samp: (seq<real>, seq<real>) -> real)
    returns (r: Result<Scores, FitError>)
    requires |ecdf| == |support|
    requires forall i :: 0 <= i < |cands| ==> CdfAligned(cands[i], data, support)
    ensures r.Success? <==> forall i :: 0 <= i < |cands| ==> ValidFit(cands[i], data)
    ensures r.Failure? ==> r.error.ParamIndexError? && IsFirstInvalid(cands, data, r.error.candidate)
    ensures r.Success? ==> r.value == ScoresOf(data, support, ecdf, cands, ks2samp)
  {
    var tabLaws: seq<string> := [];
    var tabParams: seq<seq<real>> := [];
    var tabErrors: seq<real> := [];
    var tabPvalues: seq<real> := [];
    for k := 0 to |cands|
      invariant forall j :: 0 <= j < k ==> ValidFit(cands[j], data)
      invariant |tabLaws| == |tabParams| == |tabErrors| == |tabPvalues| == k
      invariant forall j :: 0 <= j < k ==>
        && tabLaws[j] == cands[j].name
        && tabParams[j] == cands[j].fit(data)
        && tabErrors[j] == Sup(ecdf, FittedCdf(cands[j], data, support))
        && tabPvalues[j] == ks2samp(FittedCdf(cands[j], data, support), ecdf)
    {
      var distribution := cands[k];
      tabLaws := tabLaws + [distribution.name];
      var params := distribution.fit(data);
      tabParams := tabParams + [params];
      var split := SplitParams(params);
      if split.None? {
        return Failure(ParamIndexError(k));
      }
      var cdf := distribution.cdf(support, split.value.arg, split.value.loc, split.value.scale);
      var error := SearchSup(ecdf, cdf);
      tabErrors := tabErrors + [error];
      var pvalueCalc := ks2samp(cdf, ecdf);
      tabPvalues := tabPvalues + [pvalueCalc];
    }
    r := Success(Scores(tabLaws, tabParams, tabErrors, tabPvalues));
  }

  // ---------------------------------------------------------------------
  // Selecting the best candidate
  // ---------------------------------------------------------------------

  /** A KS distance or the initial +infinity of error_min. */
  datatype Distance = Finite(value: real) | Infinite

  /** x < d, with every real below +infinity. */
  predicate Below(x: real, d: Distance)
  {
    d.Infinite? || x < d.value
  }

  /** The reject flags and adjusted p-values of the correction, aligned with
      the raw p-values it was given. */
  datatype Adjustment = Adjustment(reject: seq<bool>, adjusted: seq<real>)

  /** The running best: law, parameter vector, error and p-value. */
  datatype Best = Best(law: string, params: seq<real>, error: Distance, pvalue: real)

  /** The running best before any candidate is considered. */
  const NoFit: Best := Best("None", [], Infinite, -1.0)

  /** The lists the selection loop reads all have one entry per candidate. */
  predicate Aligned(s: Scores, adj: Adjustment)
  {
    |s.laws| == |s.params| == |s.errors| == |adj.reject| == |adj.adjusted|
  }

  /** Candidate i survived the correction and its adjusted p-value is high
      enough. */
  predicate Eligible(adj: Adjustment, i: nat)
    requires i < |adj.reject| && i < |adj.adjusted|
  {
    !adj.reject[i] && adj.adjusted[i] > PValueThreshold
  }

  /** The running best made of candidate i. */
  function Candidate(s: Scores, adj: Adjustment, i: nat): Best
    requires Aligned(s, adj) && i < |adj.adjusted|
  {
    Best(s.laws[i], s.params[i], Finite(s.errors[i]), adj.adjusted[i])
  }

  /** The running best after the first n candidates: candidate i replaces it
      when it is not rejected, its error is strictly smaller and its adjusted
      p-value exceeds the threshold. */
  function SelectUpTo(s: Scores, adj: Adjustment, n: nat): Best
    requires Aligned(s, adj) && n <= |adj.adjusted|
  {
    if n == 0 then NoFit
    else
      var best := SelectUpTo(s, adj, n - 1);
      var i := n - 1;
      if !adj.reject[i] && Below(s.errors[i], best.error) && adj.adjusted[i] > PValueThreshold
      then Candidate(s, adj, i)
      else best
  }

  /** w is eligible, has the smallest error of all eligible candidates among
      the first n, and every eligible candidate before it is strictly worse. */
  predicate IsFirstMinimal(s: Scores, adj: Adjustment, n: nat, w: nat)
    requires Aligned(s, adj) && n <= |adj.adjusted|
  {
    && w < n
    && Eligible(adj, w)
    && (forall j :: 0 <= j < n && Eligible(adj, j) ==> s.errors[w] <= s.errors[j])
    && (forall j :: 0 <= j < w && Eligible(adj, j) ==> s.errors[w] < s.errors[j])
  }

  /** No candidate is selected exactly when none is eligible. */
  lemma {:induction false} SelectNoneIff(s: Scores, adj: Adjustment, n: nat)
    requires Aligned(s, adj) && n <= |adj.adjusted|
    ensures SelectUpTo(s, adj, n) == NoFit <==> forall i :: 0 <= i < n ==> !Eligible(adj, i)
  {
    if n > 0 {
      SelectNoneIff(s, adj, n - 1);
      var i := n - 1;
      if Eligible(adj, i) {
        assert SelectUpTo(s, adj, n - 1) == NoFit ==> SelectUpTo(s, adj, n) == Candidate(s, adj, i);
      }
    }
  }

  /** When some candidate is eligible, the one selected is the first eligible
      candidate of smallest error: ties go to the earlier candidate. */
  lemma {:induction false} SelectIsFirstMinimal(s: Scores, adj: Adjustment, n: nat)
    requires Aligned(s, adj) && n <= |adj.adjusted|
    requires exists i :: 0 <= i < n && Eligible(adj, i)
    ensures exists w :: IsFirstMinimal(s, adj, n, w) && SelectUpTo(s, adj, n) == Candidate(s, adj, w)
  {
    var i := n - 1;
    if forall j :: 0 <= j < i ==> !Eligible(adj, j) {
      SelectNoneIff(s, adj, i);
      assert Eligible(adj, i);
      assert IsFirstMinimal(s, adj, n, i);
    } else {
      SelectIsFirstMinimal(s, adj, i);
      var w: nat :| IsFirstMinimal(s, adj, i, w) && SelectUpTo(s, adj, i) == Candidate(s, adj, w);
      if Eligible(adj, i) && s.errors[i] < s.errors[w] {
        assert IsFirstMinimal(s, adj, n, i);
      } else {
        assert IsFirstMinimal(s, adj, n, w);
      }
    }
  }

  /** The first eligible candidate of smallest error is unique. */
  lemma FirstMinimalIsUnique(s: Scores, adj: Adjustment, n: nat, w1: nat, w2: nat)
    requires Aligned(s, adj) && n <= |adj.adjusted|
    requires IsFirstMinimal(s, adj, n, w1) && IsFirstMinimal(s, adj, n, w2)
    ensures w1 == w2
  {
  }

  /** The selection loop over the corrected candidates, with the four
      accumulators error_min, best_distribution, best_parameters and pvalue. */
  method SelectBest(s: Scores, adj: Adjustment) returns (best: Best)
    requires Aligned(s, adj)
    ensures best == SelectUpTo(s, adj, |adj.adjusted|)
    ensures best == NoFit <==> forall i :: 0 <= i < |adj.adjusted| ==> !Eligible(adj, i)
    ensures best != NoFit ==>
      exists w :: IsFirstMinimal(s, adj, |adj.adjusted|, w) && best == Candidate(s, adj, w)
  {
    var errorMin := Infinite;
    var bestDistribution := "None";
    var bestParameters: seq<real> := [];
    var pvalue := -1.0;
    for i := 0 to |adj.adjusted|
      invariant Best(bestDistribution, bestParameters, errorMin, pvalue) == SelectUpTo(s, adj, i)
    {
      if !adj.reject[i] && Below(s.errors[i], errorMin) && adj.adjusted[i] > PValueThreshold {
        errorMin := Finite(s.errors[i]);
        bestDistribution := s.laws[i];
        bestParameters := s.params[i];
        pvalue := adj.adjusted[i];
      }
    }
    best := Best(bestDistribution, bestParameters, errorMin, pvalue);
    SelectNoneIff(s, adj, |adj.adjusted|);
    if best != NoFit {
      SelectIsFirstMinimal(s, adj, |adj.adjusted|);
    }
  }

  /** When every scored parameter vector has a location and a scale, so does
      the selected one, unless nothing was selected. */
  lemma {:induction false} SelectedParamsLength(s: Scores, adj: Adjustment, n: nat)
    requires Aligned(s, adj) && n <= |adj.adjusted|
    requires forall i :: 0 <= i < |s.params| ==> |s.params[i]| >= 2
    ensures SelectUpTo(s, adj, n) == NoFit || |SelectUpTo(s, adj, n).params| >= 2
  {
    if n > 0 {
      SelectedParamsLength(s, adj, n - 1);
    }
  }

  // ---------------------------------------------------------------------
  // Shaping the result
  // ---------------------------------------------------------------------

  /** The three field sets of the returned series. */
  datatype Display =
    | LocScale(law: string, arg: seq<real>, loc: real, scale: real, ks: Distance, pValue: real)
    | ScaleOnly(law: string, arg: seq<real>, scale: real, ks: Distance, pValue: real)
    | ArgOnly(law: string, arg: seq<real>, ks: Distance, pValue: real)

  /** params[:-2]: empty when there are fewer than two entries. */
  function DropLastTwo(params: seq<real>): seq<real>
  {
    if |params| >= 2 then params[..|params| - 2] else []
  }

  /** The field set is chosen by the length of the selected parameter vector:
      two gives location and scale, one gives the scale alone, any other
      length gives only the shape arguments. */
  function Shape(b: Best): (d: Display)
    ensures d.law == b.law && d.ks == b.error && d.pValue == b.pvalue
    ensures d.LocScale? <==> |b.params| == 2
    ensures d.ScaleOnly? <==> |b.params| == 1
    ensures d.LocScale? ==> d.arg == [] && SplitParams(b.params) == Some(ParamSplit(d.arg, d.loc, d.scale))
    ensures d.ScaleOnly? ==> d.arg == [] && d.scale == b.params[0]
    ensures d.ArgOnly? && |b.params| >= 2 ==> SplitParams(b.params).value.arg == d.arg
    ensures d.ArgOnly? && |b.params| < 2 ==> d.arg == []
  {
    var params := b.params;
    if |params| == 2 then
      LocScale(b.law, DropLastTwo(params), params[|params| - 2], params[|params| - 1], b.error, b.pvalue)
    else if |params| == 1 then
      ScaleOnly(b.law, DropLastTwo(params), params[|params| - 1], b.error, b.pvalue)
    else
      ArgOnly(b.law, DropLastTwo(params), b.error, b.pvalue)
  }

  // ---------------------------------------------------------------------
  // The whole run
  // ---------------------------------------------------------------------

  /** On a non-empty list of raw p-values the correction returns one flag
      and one adjusted p-value per p-value. */
  ghost predicate CorrectionAligned(multipletests: (seq<real>, real) -> Adjustment)
  {
    forall ps, alpha :: |ps| > 0 ==>
      |multipletests(ps, alpha).reject| == |ps| && |multipletests(ps, alpha).adjusted| == |ps|
  }

  /** fitting_algo: score, correct at level 0.05, select, shape. An empty
      pool reaches the correction with no p-values, which fails. */
  method FittingAlgo(
    data: seq<real>, support: seq<real>, ecdf: seq<real>,
    cands: seq<Distribution>,
    ks2samp: (seq<real>, seq<real>) -> real,
    multipletests: (seq<real>, real) -> Adjustment)
    returns (r: Result<Display, FitError>)
    requires |ecdf| == |support|
    requires forall i :: 0 <= i < |cands| ==> CdfAligned(cands[i], data, support)
    requires CorrectionAligned(multipletests)
    ensures r.Success? <==> |cands| > 0 && forall i :: 0 <= i < |cands| ==> ValidFit(cands[i], data)
    ensures r.Failure? && r.error.ParamIndexError? ==> IsFirstInvalid(cands, data, r.error.candidate)
    ensures r.Failure? && r.error.EmptyCorrection? <==> |cands| == 0
    ensures r.Success? ==>
      var s := ScoresOf(data, support, ecdf, cands, ks2samp);
      var adj := multipletests(s.pvalues, HolmAlpha);
      Aligned(s, adj) && r.value == Shape(SelectUpTo(s, adj, |cands|))
    ensures r.Success? ==> !r.value.ScaleOnly?
  {
    var scored := ScoreCandidates(data, support, ecdf, cands, ks2samp);
    if scored.Failure? {
      return Failure(scored.error);
    }
    var s := scored.value;
    if |s.pvalues| == 0 {
      return Failure(EmptyCorrection);
    }
    var adjustments := multipletests(s.pvalues, HolmAlpha);
    var best := SelectBest(s, adjustments);
    SelectedParamsLength(s, adjustments, |cands|);
    r := Success(Shape(best));
  }
}
