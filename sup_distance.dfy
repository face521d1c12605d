/** The goodness-of-fit distance of the fitting algorithm (search_sup): the
    largest absolute pointwise difference between two aligned sequences of
    CDF values, a Kolmogorov-Smirnov style statistic. */
module SupDistance {

  /** The value the running maximum starts from; it is also the result for two
      empty sequences, where no pair of values was compared. */
  const Sentinel: real := -1.0

  /** abs(x - y). */
  function AbsDiff(x: real, y: real): (d: real)
    ensures d >= 0.0
    ensures d == x - y || d == y - x
  {
    if x - y < 0.0 then y - x else x - y
  }

  /** The running maximum after the first n positions have been scanned: it
      starts at the sentinel and is replaced only when a difference is
      strictly larger. */
  function SupPrefix(t1: seq<real>, t2: seq<real>, n: nat): real
    requires n <= |t1| == |t2|
  {
    if n == 0 then Sentinel
    else
      var running := SupPrefix(t1, t2, n - 1);
      var diff := AbsDiff(t1[n - 1], t2[n - 1]);
      if diff > running then diff else running
  }

  /** What search_sup returns on the whole of two equal-length sequences. */
  function Sup(t1: seq<real>, t2: seq<real>): real
    requires |t1| == |t2|
  {
    SupPrefix(t1, t2, |t1|)
  }

  /** s bounds every absolute difference among the first n positions and is
      attained at one of them: s is their maximum. */
  predicate IsMaxAbsDiff(t1: seq<real>, t2: seq<real>, n: nat, s: real)
    requires n <= |t1| == |t2|
  {
    && (forall k :: 0 <= k < n ==> AbsDiff(t1[k], t2[k]) <= s)
    && (exists k :: 0 <= k < n && AbsDiff(t1[k], t2[k]) == s)
  }

  /** Scans the two sequences index by index, keeping the largest absolute
      difference seen so far. Unequal lengths are a failed assert in
      search_sup, modelled as a precondition. */
  method SearchSup(tab1: seq<real>, tab2: seq<real>) returns (sup: real)
    requires |tab1| == |tab2|
    ensures sup == Sup(tab1, tab2)
    ensures |tab1| == 0 ==> sup == Sentinel
    ensures |tab1| > 0 ==> IsMaxAbsDiff(tab1, tab2, |tab1|, sup) && sup >= 0.0
  {
    sup := Sentinel;
    for k := 0 to |tab1|
      invariant sup == SupPrefix(tab1, tab2, k)
      invariant k == 0 ==> sup == Sentinel
      invariant k > 0 ==> IsMaxAbsDiff(tab1, tab2, k, sup)
    {
      var diff := AbsDiff(tab1[k], tab2[k]);
      if diff > sup {
        sup := diff;
      }
    }
  }

  /** After at least one position, the running maximum is the maximum. */
  lemma {:induction false} SupPrefixIsMax(t1: seq<real>, t2: seq<real>, n: nat)
    requires 0 < n <= |t1| == |t2|
    ensures IsMaxAbsDiff(t1, t2, n, SupPrefix(t1, t2, n))
  {
    if n > 1 {
      SupPrefixIsMax(t1, t2, n - 1);
      var running := SupPrefix(t1, t2, n - 1);
      var k :| 0 <= k < n - 1 && AbsDiff(t1[k], t2[k]) == running;
      if AbsDiff(t1[n - 1], t2[n - 1]) <= running {
        assert AbsDiff(t1[k], t2[k]) == SupPrefix(t1, t2, n);
      }
    }
  }

  /** For non-empty inputs the distance is the maximum absolute difference,
      hence a genuine distance (never the sentinel). */
  lemma {:induction false} SupIsMaximum(t1: seq<real>, t2: seq<real>)
    requires |t1| == |t2| > 0
    ensures IsMaxAbsDiff(t1, t2, |t1|, Sup(t1, t2))
    ensures Sup(t1, t2) >= 0.0
  {
    SupPrefixIsMax(t1, t2, |t1|);
  }

  /** Bounding every difference and being attained determine the distance. */
  lemma {:induction false} SupIsUnique(t1: seq<real>, t2: seq<real>, s: real)
    requires |t1| == |t2| > 0
    requires IsMaxAbsDiff(t1, t2, |t1|, s)
    ensures s == Sup(t1, t2)
  {
    SupIsMaximum(t1, t2);
  }

  lemma {:induction false} SupPrefixSymmetric(t1: seq<real>, t2: seq<real>, n: nat)
    requires n <= |t1| == |t2|
    ensures SupPrefix(t1, t2, n) == SupPrefix(t2, t1, n)
  {
    if n > 0 {
      SupPrefixSymmetric(t1, t2, n - 1);
      assert AbsDiff(t1[n - 1], t2[n - 1]) == AbsDiff(t2[n - 1], t1[n - 1]);
    }
  }

  /** The distance does not depend on the order of its arguments. */
  lemma {:induction false} SupSymmetric(t1: seq<real>, t2: seq<real>)
    requires |t1| == |t2|
    ensures Sup(t1, t2) == Sup(t2, t1)
  {
    SupPrefixSymmetric(t1, t2, |t1|);
  }

  lemma {:induction false} SupPrefixSelf(t: seq<real>, n: nat)
    requires 0 < n <= |t|
    ensures SupPrefix(t, t, n) == 0.0
  {
    if n > 1 {
      SupPrefixSelf(t, n - 1);
    }
  }

  /** A non-empty sequence is at distance zero from itself. */
  lemma {:induction false} SupSelfIsZero(t: seq<real>)
    requires |t| > 0
    ensures Sup(t, t) == 0.0
  {
    SupPrefixSelf(t, |t|);
  }
}
