/** The vessel-level totals: total weight and total GWP in tonnes and their ratio. */
module Aggregation {

  /** The sum of a column, accumulated from the first row to the last. */
  function Sum(xs: seq<real>): (total: real)
    ensures xs == [] ==> total == 0.0
    ensures |xs| == 1 ==> total == xs[0]
    ensures (forall i :: 0 <= i < |xs| ==> 0.0 <= xs[i]) ==> 0.0 <= total
  {
    if xs == [] then 0.0 else Sum(xs[..|xs| - 1]) + xs[|xs| - 1]
  }

  /** Summing two blocks of rows separately and adding the results is the same as summing
      them together. */
  lemma {:induction false} SumConcat(a: seq<real>, b: seq<real>)
    ensures Sum(a + b) == Sum(a) + Sum(b)
  {
    if b != [] {
      assert (a + b)[..|a + b| - 1] == a + b[..|b| - 1];
      SumConcat(a, b[..|b| - 1]);
    } else {
      assert a + b == a;
    }
  }

  /** The sum does not depend on the order of the rows. */
  lemma {:induction false} SumPermutation(a: seq<real>, b: seq<real>)
    requires multiset(a) == multiset(b)
    ensures Sum(a) == Sum(b)
    decreases |a|
  {
    if a == [] {
      assert |b| == |multiset(b)| == 0;
    } else {
      var n := |a| - 1;
      var x := a[n];
      assert a == a[..n] + [x];
      assert x in multiset(b);
      var i :| 0 <= i < |b| && b[i] == x;
      var rest := b[..i] + b[i + 1..];
      assert b == b[..i] + [x] + b[i + 1..];
      assert multiset(rest) == multiset(a[..n]) by {
        assert multiset(b) == multiset(b[..i]) + multiset{x} + multiset(b[i + 1..]);
        assert multiset(a) == multiset(a[..n]) + multiset{x};
        assert multiset(rest) == multiset(b[..i]) + multiset(b[i + 1..]);
        assert multiset(rest) == multiset(b) - multiset{x};
        assert multiset(a[..n]) == multiset(a) - multiset{x};
      }
      SumPermutation(a[..n], rest);
      SumConcat(b[..i] + [x], b[i + 1..]);
      SumConcat(b[..i], [x]);
      SumConcat(b[..i], b[i + 1..]);
    }
  }

  datatype Summary = Summary(totalWeightTon: real, totalGwpTon: real, specificGwp: real)

  /** Total weight and total GWP, each in tonnes, and the specific GWP, which is defined
      as 0 when the total weight is 0. */
  function Summarize(weights: seq<real>, gwps: seq<real>): (s: Summary)
    ensures 1000.0 * s.totalWeightTon == Sum(weights)
    ensures 1000.0 * s.totalGwpTon == Sum(gwps)
    ensures s.totalWeightTon != 0.0 ==> s.specificGwp * s.totalWeightTon == s.totalGwpTon
    ensures s.totalWeightTon == 0.0 ==> s.specificGwp == 0.0
    ensures weights == [] && gwps == [] ==> s == Summary(0.0, 0.0, 0.0)
  {
    var totalWeightTon := Sum(weights) / 1000.0;
    var totalGwpTon := Sum(gwps) / 1000.0;
    var specificGwp := if totalWeightTon != 0.0 then totalGwpTon / totalWeightTon else 0.0;
    Summary(totalWeightTon, totalGwpTon, specificGwp)
  }

  /** Reordering the rows leaves the summary unchanged. */
  lemma SummarizeOrderIndependent(weights: seq<real>, gwps: seq<real>, weights': seq<real>, gwps': seq<real>)
    requires multiset(weights) == multiset(weights')
    requires multiset(gwps) == multiset(gwps')
    ensures Summarize(weights, gwps) == Summarize(weights', gwps')
  {
    SumPermutation(weights, weights');
    SumPermutation(gwps, gwps');
  }

  /** A non-negative quotient bounded through its divisor. */
  lemma QuotientWithin(g: real, w: real, bound: real)
    requires 0.0 < w && 0.0 <= g <= bound * w
    ensures 0.0 <= g / w <= bound
  {
    var q := g / w;
    assert q * w == g;
    assert (q - bound) * w <= 0.0;
  }

  /** When the total GWP lies between 0 and `bound` times a non-negative total weight, the
      specific GWP lies between 0 and `bound`. */
  lemma SpecificGwpWithin(weights: seq<real>, gwps: seq<real>, bound: real)
    requires 0.0 <= bound && 0.0 <= Sum(weights)
    requires 0.0 <= Sum(gwps) <= bound * Sum(weights)
    ensures 0.0 <= Summarize(weights, gwps).specificGwp <= bound
  {
    var s := Summarize(weights, gwps);
    var w, g := s.totalWeightTon, s.totalGwpTon;
    if w != 0.0 {
      assert w == Sum(weights) / 1000.0 && g == Sum(gwps) / 1000.0;
      assert bound * w == (bound * Sum(weights)) / 1000.0;
      QuotientWithin(g, w, bound);
    }
  }
}
