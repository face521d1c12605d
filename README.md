# Fitting algorithm: best-fit law selection, modelled in Dafny

The repository picks, from a pool of candidate statistical laws, the one that
best fits a sample. It has two parts, both in `algo_fitting.py`:

- `search_sup`, the goodness-of-fit distance. It scans two aligned sequences
  of CDF values and keeps the largest absolute pointwise difference, starting
  from the sentinel `-1`. This is a Kolmogorov–Smirnov style statistic.
- `fitting_algo`, the selection pipeline. For each candidate law, in order, it
  records the law's name and its fitted parameter vector. It then splits the
  vector into shape arguments, location and scale, and evaluates the fitted
  CDF at the sorted unique sample points. It computes the KS distance against
  the empirical CDF and takes a two-sample p-value. All raw p-values are then
  corrected jointly with the Holm method at level 0.05. The selection loop keeps
  the candidate of smallest distance among those that were not rejected and
  whose adjusted p-value exceeds 0.1. Ties go to the earlier candidate. The
  winner is returned as a record whose field set depends on the length of its
  parameter vector.

Module `SupDistance` (`sup_distance.dfy`) models `search_sup`. The method
`SearchSup` keeps the source's `for` loop over `seq<real>`. `SupPrefix` is the
running maximum after `n` positions and `Sup` is its value on the whole input;
the lemmas prove facts about both.

Module `Fitting` (`fitting_algo.dfy`) models `fitting_algo`:

- A candidate is a `Distribution` value: its name, its `fit`, and its `cdf`.
  `fit` and `cdf` are total function-valued fields standing for the SciPy
  routines.
- `ks_2samp` and `multipletests` are function parameters of the methods.
- The sorted unique sample (`support`) and the empirical CDF at it (`ecdf`) are
  inputs.
- `ScoreCandidates` is the loop that fills the four lists. It is specified by
  `ScoresOf`.
- `SelectBest` is the selection loop with its four accumulators. It is
  specified by the fold `SelectUpTo` and by the predicate `IsFirstMinimal`
  (eligible, minimal, earliest).
- `Shape` is the final case split on the parameter-vector length.
- `FittingAlgo` chains the four steps.
- The initial `error_min = inf` is the `Infinite` case of `Distance`.
- Indexing `params[-2]` on a vector shorter than two raises an `IndexError` in
  the source. Here it is `Failure(ParamIndexError(k))`, where `k` is the first
  such candidate.

Three behaviours of the source that a reader might not expect:

- For a parameter vector of three or more entries, the final `else`
  (algo_fitting.py:126-130) emits only the law, `params[:-2]`, the KS distance
  and the p-value. Location and scale are dropped. `Shape` does the same.
- algo_fitting.py:101 calls the correction even when there are no candidates.
  The correction then has no tests to divide by, so an empty pool fails there
  instead of returning the "None" series. `FittingAlgo` reports this as
  `Failure(EmptyCorrection)`.
- The length-1 branch of the result shaping (algo_fitting.py:121-125) is kept
  in `Shape`. `FittingAlgo` proves that it is never reached: a one-entry vector
  fails at `params[-2]` (algo_fitting.py:84) first.

## Model

| member | source | states |
|---|---|---|
| `SupDistance.AbsDiff` | algo_fitting.py:36 | the pointwise difference is non-negative and is either `x - y` or `y - x` |
| `SupDistance.SearchSup` | algo_fitting.py:32-39 | equal lengths are required (the bare assert). Empty input gives the sentinel `-1`. Otherwise the result bounds every `abs(tab1[k]-tab2[k])`, is attained at some `k`, and is `>= 0`. The inputs are values and are not modified |
| `SupDistance.SupPrefixIsMax` | algo_fitting.py:34-38 | after at least one position, the running maximum (sentinel start, replaced only on strict `>`) bounds every difference seen and equals one of them |
| `SupDistance.SupIsMaximum` | algo_fitting.py:35-38 | for non-empty equal-length inputs, the distance is the maximum absolute difference and is non-negative |
| `SupDistance.SupIsUnique` | algo_fitting.py:35-38 | any value that bounds every difference and is attained equals the distance |
| `SupDistance.SupPrefixSymmetric` | algo_fitting.py:36 | every prefix running maximum is the same with the two arguments swapped |
| `SupDistance.SupSymmetric` | algo_fitting.py:36 | the distance is symmetric in its two arguments |
| `SupDistance.SupPrefixSelf` | algo_fitting.py:34-38 | the running maximum of a sequence against itself is 0 after at least one position |
| `SupDistance.SupSelfIsZero` | algo_fitting.py:34-38 | a non-empty sequence is at distance 0 from itself, not at the sentinel |
| `Fitting.SplitParams` | algo_fitting.py:83-85 | a split exists iff the vector has at least two entries. Then `arg + [loc, scale]` is the vector and `arg` has two entries fewer |
| `Fitting.SplitJoin` | algo_fitting.py:83-85 | splitting `arg + [loc, scale]` gives back `arg`, `loc` and `scale` |
| `Fitting.ScoresOf` | algo_fitting.py:77-97 | when every candidate fits, the four lists have one entry per candidate and every recorded parameter vector has a location and a scale |
| `Fitting.ScoreCandidates` | algo_fitting.py:66-97 | succeeds iff every fitted vector has at least two entries. Otherwise it fails at the first candidate whose vector is shorter. On success entry `i` holds candidate `i`'s name, its fitted vector, `search_sup(ecdf, cdf_i)` and `ks_2samp(cdf_i, ecdf)`, in candidate order |
| `Fitting.SelectNoneIff` | algo_fitting.py:107-112 | the selection stays at the initial `("None", [], inf, -1)` iff no candidate is both unrejected and has an adjusted p-value above 0.1 |
| `Fitting.SelectIsFirstMinimal` | algo_fitting.py:107-112 | when some candidate is eligible, the selection is candidate `w`'s (law, params, error, adjusted p-value). Here `w` is eligible, its error is at most every eligible error, and it is strictly below the error of every earlier eligible candidate (strict `<`: earliest wins ties) |
| `Fitting.FirstMinimalIsUnique` | algo_fitting.py:108-112 | at most one index is the first eligible candidate of smallest error |
| `Fitting.SelectBest` | algo_fitting.py:60-112 | the loop with its four accumulators computes the fold. It returns the initial record iff nothing is eligible, and otherwise the first eligible candidate of minimal error |
| `Fitting.SelectedParamsLength` | algo_fitting.py:107-125 | when every scored vector has at least two entries, the selection is either the initial record or has a vector of at least two entries. So the length-1 branch cannot be reached |
| `Fitting.Shape` | algo_fitting.py:115-130 | keeps law, KS distance and p-value. Length 2 gives `LocScale` with `arg = []` and `[loc, scale]` equal to the vector. Length 1 gives `ScaleOnly` with `arg = []` and `scale = params[-1]`. Any other length gives `ArgOnly` with `arg = params[:-2]` (empty below two), dropping location and scale |
| `Fitting.FittingAlgo` | algo_fitting.py:45-130 | succeeds iff there is at least one candidate and every fitted vector has a location and a scale. Otherwise it reports the first vector that does not, or, for an empty pool, the failing correction. On success the result is `Shape` of the selection over the scored lists, corrected at level 0.05. It is never the length-1 shape |

## Left out

- `distribution.fit` and `distribution.cdf` (SciPy) are total function-valued fields of `Distribution`. A fit that raises or diverges is not modelled, because the source does not guard it either. The CDF is assumed to give one value per point (`CdfAligned`).
- `st.ks_2samp` is a function parameter. Its statistics are not modelled.
- `multipletests(..., method='h')` (Holm–Bonferroni) is a function parameter. On a non-empty list it is assumed to return one flag and one adjusted p-value per raw p-value (`CorrectionAligned`). The Holm step-down itself is not re-derived, so no property of the adjusted p-values (such as being at least the raw ones) is stated.
- `numpy.unique`/`numpy.sort` and the statsmodels `ECDF` are not modelled. The sorted unique sample and the empirical CDF at it are inputs of equal length.
- Floating point is not modelled: values are `real`, so there is no rounding and no NaN. `numpy.inf` is the `Infinite` case of `Distance`.
- The `pandas.Series` result is the `Display` datatype with one constructor per field set.
- The commented-out candidate pool and data loading are configuration and I/O glue, and are not modelled.
- FittingAlgo: the failure for an empty pool is inferred from the correction dividing by the number of tests. That routine is not part of this model, so its exact exception is not modelled.
